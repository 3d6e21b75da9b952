/**
 * `allowed_file` (routes.py and app/routes.py): an upload is accepted when
 * the text after its last dot, lower-cased, is one of the allowed extensions.
 */
module Upload {
  import opened Base
  import opened Text

  /** `app.config['ALLOWED_EXTENSIONS']`, the same set in both Flask apps. */
  const ALLOWED_EXTENSIONS: set<string> := {"xlsx", "xls", "csv"}

  /** Position of the last `.` in `name`, if any. */
  function LastDot(name: string): (p: Option<nat>)
    ensures p.None? <==> '.' !in name
    ensures p.Some? ==> p.value < |name| && name[p.value] == '.' && '.' !in name[p.value + 1..]
  {
    if |name| == 0 then None
    else if name[|name| - 1] == '.' then Some(|name| - 1)
    else
      var init := name[..|name| - 1];
      assert name == init + [name[|name| - 1]];
      match LastDot(init)
      case None => None
      case Some(q) =>
        assert name[q + 1..] == init[q + 1..] + [name[|name| - 1]];
        Some(q)
  }

  /** `filename.rsplit('.', 1)[1]`: the text after the last dot (`None` without a dot). */
  function Extension(name: string): (e: Option<string>)
    ensures e.None? <==> '.' !in name
    ensures e.Some? ==> '.' !in e.value && |e.value| < |name|
                        && name == name[..|name| - |e.value| - 1] + "." + e.value
  {
    match LastDot(name)
    case None => None
    case Some(p) =>
      assert name == name[..p] + "." + name[p + 1..];
      Some(name[p + 1..])
  }

  /** `allowed_file`. */
  predicate AllowedFile(name: string, allowed: set<string>)
  {
    match Extension(name)
    case None => false
    case Some(e) => Lower(e) in allowed
  }

  /** Splitting at the last dot undoes joining a stem and a dot-free extension. */
  lemma ExtensionOfJoin(stem: string, ext: string)
    requires '.' !in ext
    ensures Extension(stem + "." + ext) == Some(ext)
  {
    var name := stem + "." + ext;
    assert name[|stem|] == '.';
    var p := LastDot(name).value;
    assert name[p + 1..] == ext;
  }

  /**
   * A name is accepted exactly when it is some stem, a dot and an extension
   * that has no dot and lower-cases to an allowed one.
   */
  lemma AllowedFileSpec(name: string, allowed: set<string>)
    ensures AllowedFile(name, allowed) <==>
              exists stem, ext :: name == stem + "." + ext && '.' !in ext && Lower(ext) in allowed
  {
    if AllowedFile(name, allowed) {
      AcceptedSplits(name, allowed);
    }
    if exists stem, ext :: name == stem + "." + ext && '.' !in ext && Lower(ext) in allowed {
      var stem, ext :| name == stem + "." + ext && '.' !in ext && Lower(ext) in allowed;
      JoinAccepted(stem, ext, allowed);
    }
  }

  lemma AcceptedSplits(name: string, allowed: set<string>)
    requires AllowedFile(name, allowed)
    ensures exists stem, ext :: name == stem + "." + ext && '.' !in ext && Lower(ext) in allowed
  {
    var ext := Extension(name).value;
    var stem := name[..|name| - |ext| - 1];
    assert name == stem + "." + ext;
  }

  lemma JoinAccepted(stem: string, ext: string, allowed: set<string>)
    requires '.' !in ext && Lower(ext) in allowed
    ensures AllowedFile(stem + "." + ext, allowed)
  {
    ExtensionOfJoin(stem, ext);
  }

  // ---------------------------------------------------------------------
  // Examples
  // ---------------------------------------------------------------------

  /** Only the text after the last dot counts: `statement.csv.zip` is refused, `archive.tar.csv` accepted. */
  lemma LastExtensionCounts()
    ensures !AllowedFile("statement.csv.zip", ALLOWED_EXTENSIONS)
    ensures AllowedFile("archive.tar.csv", ALLOWED_EXTENSIONS)
  {
    assert "statement.csv.zip" == "statement.csv" + "." + "zip";
    assert Lower("zip") == "zip";
    ExampleVerdict("statement.csv", "zip", false);
    assert "archive.tar.csv" == "archive.tar" + "." + "csv";
    assert Lower("csv") == "csv";
    ExampleVerdict("archive.tar", "csv", true);
  }

  /** Case does not matter: `REPORT.XLSX` is accepted. */
  lemma ExtensionCaseIgnored()
    ensures AllowedFile("REPORT.XLSX", ALLOWED_EXTENSIONS)
  {
    assert "REPORT.XLSX" == "REPORT" + "." + "XLSX";
    assert Lower("XLSX") == "xlsx";
    ExampleVerdict("REPORT", "XLSX", true);
  }

  /** A trailing dot leaves an empty extension, and a name without a dot has none. */
  lemma MissingExtensionRefused()
    ensures !AllowedFile("report.", ALLOWED_EXTENSIONS)
    ensures !AllowedFile("csv", ALLOWED_EXTENSIONS)
  {
    assert "report." == "report" + "." + "";
    ExampleVerdict("report", "", false);
    assert '.' !in "csv" by {
      assert "csv"[0] != '.' && "csv"[1] != '.' && "csv"[2] != '.';
    }
  }

  lemma ExampleVerdict(stem: string, ext: string, accepted: bool)
    requires '.' !in ext
    requires (Lower(ext) in ALLOWED_EXTENSIONS) == accepted
    ensures AllowedFile(stem + "." + ext, ALLOWED_EXTENSIONS) == accepted
  {
    ExtensionOfJoin(stem, ext);
  }
}
