/** app/main.py: the request handlers' decision logic. The store is a
    `Database.Store`; the remote services are `Services.Remote`; random
    names and ids are functions of the position in the request; writing the
    upload to disk is not modelled. */
module Api {
  import opened Common
  import opened Text
  import opened Utils
  import opened Services
  import opened Database
  import Email

  /** What an unhandled exception becomes. */
  const InternalServerError := HttpError(500, "Internal Server Error")

  // ------------------------------------------------------ os.path.splitext

  /** Index of the last `c` in `s`, or -1. */
  function LastIndex(s: string, c: char): (r: int)
    ensures -1 <= r < |s|
    ensures r >= 0 ==> s[r] == c
    ensures forall k :: r < k < |s| ==> s[k] != c
  {
    if s == [] then -1
    else if s[|s| - 1] == c then |s| - 1
    else LastIndex(s[..|s| - 1], c)
  }

  /** `os.path.splitext` with '/' as the separator: the extension runs from
      the last '.' of the last path component, unless only dots precede that
      '.' in the component (".bashrc" has no extension). */
  function SplitExt(p: string): (r: (string, string))
    ensures r.0 + r.1 == p
    ensures r.1 != [] ==> r.1[0] == '.' && '.' !in r.1[1..] && '/' !in r.1
  {
    var sep := LastIndex(p, '/');
    var dot := LastIndex(p, '.');
    if dot > sep && exists k :: sep < k < dot && p[k] != '.' then
      assert p[..dot] + p[dot..] == p;
      (p[..dot], p[dot..])
    else (p, "")
  }

  /** A name with a non-dot character before its last '.' splits there. */
  lemma SplitExtOfName(stem: string, ext: string)
    requires '/' !in stem && '/' !in ext && '.' !in ext
    requires exists k :: 0 <= k < |stem| && stem[k] != '.'
    ensures SplitExt(stem + "." + ext) == (stem, "." + ext)
  {
    var p := stem + "." + ext;
    var k :| 0 <= k < |stem| && stem[k] != '.';
    assert p[k] == stem[k];
    assert LastIndex(p, '.') == |stem| by {
      assert p[|stem|] == '.';
      forall j | |stem| < j < |p| ensures p[j] != '.' { assert p[j] == ext[j - |stem| - 1]; }
      LastIndexIs(p, '.', |stem|);
    }
    assert LastIndex(p, '/') == -1 by {
      forall j | 0 <= j < |p| ensures p[j] != '/' {
        if j < |stem| { assert p[j] == stem[j]; } else if j > |stem| { assert p[j] == ext[j - |stem| - 1]; }
      }
    }
    assert p[..|stem|] == stem;
    assert p[|stem|..] == "." + ext;
  }

  /** A dot-file has no extension: ".pdf" is all stem. */
  lemma DotFileHasNoExtension(ext: string)
    requires '/' !in ext && '.' !in ext
    ensures SplitExt("." + ext) == ("." + ext, "")
  {
    var p := "." + ext;
    assert LastIndex(p, '.') == 0 by {
      forall j | 0 < j < |p| ensures p[j] != '.' { assert p[j] == ext[j - 1]; }
      LastIndexIs(p, '.', 0);
    }
  }

  lemma {:induction false} LastIndexIs(s: string, c: char, i: nat)
    requires i < |s| && s[i] == c
    requires forall j :: i < j < |s| ==> s[j] != c
    ensures LastIndex(s, c) == i
    decreases |s|
  {
    if i < |s| - 1 {
      var t := s[..|s| - 1];
      assert t[i] == s[i];
      LastIndexIs(t, c, i);
    }
  }

  // ------------------------------------------------------- resume scoring

  datatype ScoreResponse = ScoreResponse(score: real, explanation: string)

  const NoTextExtracted := HttpError(400, "Could not extract any text from the resume.")

  /** `score_resume` up to the insert: the upload's type, its text, the blank
      check and the score, each failure propagating as it is raised. */
  function ScoreUpload(u: Upload, jobDescription: string, remote: Remote): (r: Result<(ScoreData, string), HttpError>)
    ensures GetTextFromResume(u).Err? ==> r == Err(GetTextFromResume(u).error)
  {
    match GetTextFromResume(u)
    case Err(e) => Err(e)
    case Ok((bytes, fileType)) =>
      match ExtractResumeText(bytes, fileType, remote)
      case Err(e) => Err(e)
      case Ok(text) =>
        if Blank(text) then Err(NoTextExtracted)
        else
          match GetLlmScore(text, jobDescription, remote)
          case Err(e) => Err(e)
          case Ok(d) => Ok((d, text))
  }

  /** Blank or whitespace-only text is refused with 400, whatever the model would say. */
  lemma BlankTextRefusedBeforeScoring(u: Upload, jobDescription: string, remote: Remote,
                                      llm: Prompt -> LlmOutcome)
    requires GetTextFromResume(u).Ok?
    requires var (bytes, t) := GetTextFromResume(u).value;
             ExtractResumeText(bytes, t, remote).Ok? && Blank(ExtractResumeText(bytes, t, remote).value)
    ensures ScoreUpload(u, jobDescription, remote) == Err(NoTextExtracted)
    ensures ScoreUpload(u, jobDescription, remote.(llm := llm)) == Err(NoTextExtracted)
  {
  }

  /** `score_resume`: failures before the insert leave the store alone; the
      row is inserted with the score (0 when absent) and the explanation (""
      when absent); the response needs both keys, so a reply lacking one
      fails after the row was stored. */
  method ScoreResume(store: Store, jobDescription: string, u: Upload, candidateName: Option<string>,
                     remote: Remote, id: string, uuid: string)
    returns (r: Result<ScoreResponse, HttpError>)
    requires store.Valid()
    modifies store
    ensures store.Valid()
    ensures ScoreUpload(u, jobDescription, remote).Err? ==>
              r == Err(ScoreUpload(u, jobDescription, remote).error) && store.applications == old(store.applications)
    ensures ScoreUpload(u, jobDescription, remote).Ok? ==>
              var d := ScoreUpload(u, jobDescription, remote).value.0;
              var ins := ApplicationInsert(old(store.applications), id, TruthyOr(candidateName, "Unknown Candidate"),
                                           d.score.GetOr(0.0), d.explanation.GetOr(""), "Applicant", None,
                                           Some(uuid + SplitExt(u.filename).1));
              && store.applications == (if ins.Ok? then old(store.applications)[id := ins.value]
                                        else old(store.applications))
              && (ins.Err? || d.score.None? || d.explanation.None? ==> r == Err(InternalServerError))
              && (ins.Ok? && d.score.Some? && d.explanation.Some? ==>
                    r == Ok(ScoreResponse(d.score.value, d.explanation.value)))
    ensures store.users == old(store.users) && store.tokens == old(store.tokens)
    ensures store.postings == old(store.postings) && store.jobApplications == old(store.jobApplications)
  {
    var pre := ScoreUpload(u, jobDescription, remote);
    if pre.Err? {
      return Err(pre.error);
    }
    var d := pre.value.0;
    var ins := store.CreateApplication(id, TruthyOr(candidateName, "Unknown Candidate"), d.score.GetOr(0.0),
                                       d.explanation.GetOr(""), "Applicant", None,
                                       Some(uuid + SplitExt(u.filename).1));
    if ins.Err? || d.score.None? || d.explanation.None? {
      return Err(InternalServerError);
    }
    r := Ok(ScoreResponse(d.score.value, d.explanation.value));
  }

  // -------------------------------------------------------- batch scoring

  /** One batch entry; the file's name is kept with its result. */
  datatype BatchEntry = BatchEntry(score: real, explanation: string, filename: string)

  const MaxBatchFiles := 5
  const BlankFileExplanation := "Could not extract text from this file."

  /** What one file of a batch comes to before the insert: an entry with score
      0, or a score to store. */
  datatype FileOutcome = Degraded(explanation: string) | Scored(data: ScoreData)

  function ErrorExplanation(e: HttpError): string {
    "Error processing file: " + ErrorText(e)
  }

  function ScoreFile(u: Upload, jobDescription: string, remote: Remote): (r: FileOutcome)
    ensures ScoreUpload(u, jobDescription, remote).Ok? <==> r.Scored?
    ensures ScoreUpload(u, jobDescription, remote).Ok? ==> r == Scored(ScoreUpload(u, jobDescription, remote).value.0)
    ensures ScoreUpload(u, jobDescription, remote) == Err(NoTextExtracted) ==> r == Degraded(BlankFileExplanation)
    ensures ScoreUpload(u, jobDescription, remote).Err? && ScoreUpload(u, jobDescription, remote).error != NoTextExtracted
            ==> r == Degraded("Error processing file: " + ErrorText(ScoreUpload(u, jobDescription, remote).error))
  {
    match ScoreUpload(u, jobDescription, remote)
    case Ok((d, _)) => Scored(d)
    case Err(e) => if e == NoTextExtracted then Degraded(BlankFileExplanation) else Degraded(ErrorExplanation(e))
  }

  /** The outcome of each file, in order. */
  function Outcomes(files: seq<Upload>, jobDescription: string, remote: Remote): (r: seq<FileOutcome>)
    ensures |r| == |files|
    ensures forall i :: 0 <= i < |files| ==> r[i] == ScoreFile(files[i], jobDescription, remote)
  {
    seq(|files|, i requires 0 <= i < |files| => ScoreFile(files[i], jobDescription, remote))
  }

  /** The applications table after the loop body ran for file `i`, whose
      outcome is `o`: a scored file adds its row unless the insert fails. */
  function TableAfter(apps: map<string, Application>, i: nat, u: Upload, o: FileOutcome,
                      ids: nat -> string, uuids: nat -> string): (r: map<string, Application>)
    ensures forall id :: id in apps ==> id in r && r[id] == apps[id]
    ensures forall id :: id in r && id !in apps ==> r[id].jobRole == "Applicant" && r[id].status == "pending"
    ensures r.Keys <= apps.Keys + {ids(i)}
    ensures (ids(i) in r && ids(i) !in apps) <==>
              o.Scored? && ApplicationInsert(apps, ids(i), SplitExt(u.filename).0, o.data.score.GetOr(0.0),
                                             o.data.explanation.GetOr(""), "Applicant", None,
                                             Some(uuids(i) + SplitExt(u.filename).1)).Ok?
  {
    match o
    case Degraded(_) => apps
    case Scored(d) =>
      var ext := SplitExt(u.filename).1;
      match ApplicationInsert(apps, ids(i), SplitExt(u.filename).0, d.score.GetOr(0.0), d.explanation.GetOr(""),
                              "Applicant", None, Some(uuids(i) + ext))
      case Err(_) => apps
      case Ok(row) => apps[ids(i) := row]
  }

  /** The entry the loop body appends for file `i`: always for that file;
      score 0 with the explanation when the file was degraded. */
  function EntryFor(apps: map<string, Application>, i: nat, u: Upload, o: FileOutcome,
                    ids: nat -> string, uuids: nat -> string, errorText: DbError -> string): (e: BatchEntry)
    ensures e.filename == u.filename
    ensures o.Degraded? ==> e == BatchEntry(0.0, o.explanation, u.filename)
    ensures o.Scored? ==>
              var ins := ApplicationInsert(apps, ids(i), SplitExt(u.filename).0, o.data.score.GetOr(0.0),
                                           o.data.explanation.GetOr(""), "Applicant", None,
                                           Some(uuids(i) + SplitExt(u.filename).1));
              && (ins.Ok? ==> e == BatchEntry(o.data.score.GetOr(0.0), o.data.explanation.GetOr(""), u.filename))
              && (ins.Err? ==> e == BatchEntry(0.0, "Error processing file: " + errorText(ins.error), u.filename))
  {
    match o
    case Degraded(x) => BatchEntry(0.0, x, u.filename)
    case Scored(d) =>
      var score, explanation := d.score.GetOr(0.0), d.explanation.GetOr("");
      var ext := SplitExt(u.filename).1;
      match ApplicationInsert(apps, ids(i), SplitExt(u.filename).0, score, explanation,
                              "Applicant", None, Some(uuids(i) + ext))
      case Err(db) => BatchEntry(0.0, "Error processing file: " + errorText(db), u.filename)
      case Ok(_) => BatchEntry(score, explanation, u.filename)
  }

  /** The entries and the applications table after the loop body ran for file `i`. */
  function BatchStep(acc: (seq<BatchEntry>, map<string, Application>), i: nat, u: Upload, o: FileOutcome,
                     ids: nat -> string, uuids: nat -> string,
                     errorText: DbError -> string): (seq<BatchEntry>, map<string, Application>)
  {
    (acc.0 + [EntryFor(acc.1, i, u, o, ids, uuids, errorText)], TableAfter(acc.1, i, u, o, ids, uuids))
  }

  /** The entries and the table after the first `k` files. */
  function BatchRun(files: seq<Upload>, outcomes: seq<FileOutcome>, k: nat, apps: map<string, Application>,
                    ids: nat -> string, uuids: nat -> string,
                    errorText: DbError -> string): (seq<BatchEntry>, map<string, Application>)
    requires k <= |files| && k <= |outcomes|
  {
    if k == 0 then ([], apps)
    else BatchStep(BatchRun(files, outcomes, k - 1, apps, ids, uuids, errorText), k - 1,
                   files[k - 1], outcomes[k - 1], ids, uuids, errorText)
  }

  function Min(a: nat, b: nat): nat {
    if a < b then a else b
  }

  /** `score_resumes_batch`: the first five files, one entry each. */
  method ScoreResumesBatch(store: Store, jobDescription: string, files: seq<Upload>, remote: Remote,
                           ids: nat -> string, uuids: nat -> string, errorText: DbError -> string)
    returns (results: seq<BatchEntry>)
    requires store.Valid()
    modifies store
    ensures store.Valid()
    ensures (results, store.applications)
            == BatchRun(files, Outcomes(files, jobDescription, remote), Min(MaxBatchFiles, |files|),
                        old(store.applications), ids, uuids, errorText)
    ensures store.users == old(store.users) && store.tokens == old(store.tokens)
    ensures store.postings == old(store.postings) && store.jobApplications == old(store.jobApplications)
  {
    results := [];
    var n := Min(MaxBatchFiles, |files|);
    ghost var outcomes := Outcomes(files, jobDescription, remote);
    for i := 0 to n
      invariant store.Valid()
      invariant (results, store.applications)
                == BatchRun(files, outcomes, i, old(store.applications), ids, uuids, errorText)
      invariant store.users == old(store.users) && store.tokens == old(store.tokens)
      invariant store.postings == old(store.postings) && store.jobApplications == old(store.jobApplications)
    {
      var u := files[i];
      var o := ScoreFile(u, jobDescription, remote);
      assert o == outcomes[i];
      ghost var before := store.applications;
      ghost var entry := EntryFor(before, i, u, o, ids, uuids, errorText);
      ghost var after := TableAfter(before, i, u, o, ids, uuids);
      match o {
        case Degraded(e) =>
          results := results + [BatchEntry(0.0, e, u.filename)];
        case Scored(d) =>
          var score, explanation := d.score.GetOr(0.0), d.explanation.GetOr("");
          var (stem, ext) := SplitExt(u.filename);
          var ins := store.CreateApplication(ids(i), stem, score, explanation, "Applicant", None, Some(uuids(i) + ext));
          if ins.Err? {
            results := results + [BatchEntry(0.0, "Error processing file: " + errorText(ins.error), u.filename)];
          } else {
            results := results + [BatchEntry(score, explanation, u.filename)];
          }
      }
      assert results[|results| - 1] == entry && store.applications == after;
    }
  }

  /** One entry per processed file, in input order, each for its own file. */
  lemma {:induction false} BatchEntries(files: seq<Upload>, outcomes: seq<FileOutcome>, k: nat,
                                        apps: map<string, Application>, ids: nat -> string,
                                        uuids: nat -> string, errorText: DbError -> string)
    requires k <= |files| && k <= |outcomes|
    ensures var run := BatchRun(files, outcomes, k, apps, ids, uuids, errorText);
            && |run.0| == k
            && forall i :: 0 <= i < k ==> run.0[i].filename == files[i].filename
  {
    if k > 0 {
      BatchEntries(files, outcomes, k - 1, apps, ids, uuids, errorText);
      var prev := BatchRun(files, outcomes, k - 1, apps, ids, uuids, errorText);
      var e := EntryFor(prev.1, k - 1, files[k - 1], outcomes[k - 1], ids, uuids, errorText);
      assert BatchRun(files, outcomes, k, apps, ids, uuids, errorText).0 == prev.0 + [e];
    }
  }

  /** A degraded file's entry has score 0 and the file's explanation, and the
      files after it are still processed. */
  lemma {:induction false} BatchDegradedEntry(files: seq<Upload>, outcomes: seq<FileOutcome>, k: nat, i: nat,
                                              apps: map<string, Application>, ids: nat -> string,
                                              uuids: nat -> string, errorText: DbError -> string)
    requires i < k <= |files| && k <= |outcomes| && outcomes[i].Degraded?
    ensures var run := BatchRun(files, outcomes, k, apps, ids, uuids, errorText);
            i < |run.0| && run.0[i] == BatchEntry(0.0, outcomes[i].explanation, files[i].filename)
  {
    BatchEntries(files, outcomes, k - 1, apps, ids, uuids, errorText);
    var prev := BatchRun(files, outcomes, k - 1, apps, ids, uuids, errorText);
    var e := EntryFor(prev.1, k - 1, files[k - 1], outcomes[k - 1], ids, uuids, errorText);
    assert BatchRun(files, outcomes, k, apps, ids, uuids, errorText).0 == prev.0 + [e];
    if i < k - 1 {
      BatchDegradedEntry(files, outcomes, k - 1, i, apps, ids, uuids, errorText);
    }
  }

  /** The batch never loses or alters a row that was already stored, and
      every row it adds carries the "Applicant" role and status "pending". */
  lemma {:induction false} BatchKeepsRows(files: seq<Upload>, outcomes: seq<FileOutcome>, k: nat,
                                          apps: map<string, Application>, ids: nat -> string,
                                          uuids: nat -> string, errorText: DbError -> string)
    requires k <= |files| && k <= |outcomes|
    ensures var run := BatchRun(files, outcomes, k, apps, ids, uuids, errorText);
            && (forall id :: id in apps ==> id in run.1 && run.1[id] == apps[id])
            && (forall id :: id in run.1 && id !in apps ==>
                  run.1[id].jobRole == "Applicant" && run.1[id].status == "pending")
  {
    if k > 0 {
      BatchKeepsRows(files, outcomes, k - 1, apps, ids, uuids, errorText);
    }
  }

  /** Files past the fifth are never looked at: the batch over six or more
      files is the batch over the first five. */
  lemma BatchIgnoresExtraFiles(files: seq<Upload>, apps: map<string, Application>, jobDescription: string,
                               remote: Remote, ids: nat -> string, uuids: nat -> string,
                               errorText: DbError -> string)
    requires |files| > MaxBatchFiles
    ensures BatchRun(files, Outcomes(files, jobDescription, remote), Min(MaxBatchFiles, |files|), apps,
                     ids, uuids, errorText)
            == BatchRun(files[..MaxBatchFiles], Outcomes(files[..MaxBatchFiles], jobDescription, remote),
                        MaxBatchFiles, apps, ids, uuids, errorText)
  {
    var all, first := Outcomes(files, jobDescription, remote), Outcomes(files[..MaxBatchFiles], jobDescription, remote);
    assert first == all[..MaxBatchFiles];
    BatchPrefix(files, all, files[..MaxBatchFiles], first, MaxBatchFiles, apps, ids, uuids, errorText);
  }

  /** The batch over the first `k` files only looks at those files and their outcomes. */
  lemma {:induction false} BatchPrefix(files: seq<Upload>, outcomes: seq<FileOutcome>, prefix: seq<Upload>,
                                       prefixOutcomes: seq<FileOutcome>, k: nat, apps: map<string, Application>,
                                       ids: nat -> string, uuids: nat -> string, errorText: DbError -> string)
    requires k <= |prefix| <= |files| && prefix == files[..|prefix|]
    requires k <= |prefixOutcomes| <= |outcomes| && prefixOutcomes == outcomes[..|prefixOutcomes|]
    ensures BatchRun(files, outcomes, k, apps, ids, uuids, errorText)
            == BatchRun(prefix, prefixOutcomes, k, apps, ids, uuids, errorText)
  {
    if k > 0 {
      BatchPrefix(files, outcomes, prefix, prefixOutcomes, k - 1, apps, ids, uuids, errorText);
      assert files[k - 1] == prefix[k - 1];
      assert outcomes[k - 1] == prefixOutcomes[k - 1];
    }
  }

  /** A file whose text is blank gets the fixed explanation, and the
      language model is not consulted for it. */
  lemma BlankFileNotScored(u: Upload, jobDescription: string, remote: Remote, llm: Prompt -> LlmOutcome)
    requires GetTextFromResume(u).Ok?
    requires var (bytes, t) := GetTextFromResume(u).value;
             ExtractResumeText(bytes, t, remote).Ok? && Blank(ExtractResumeText(bytes, t, remote).value)
    ensures ScoreFile(u, jobDescription, remote) == Degraded(BlankFileExplanation)
    ensures ScoreFile(u, jobDescription, remote.(llm := llm)) == Degraded(BlankFileExplanation)
  {
  }

  /** An unsupported file becomes an entry quoting the 400 error. */
  lemma UnsupportedFileDegrades(u: Upload, jobDescription: string, remote: Remote)
    requires !EndsWith(u.filename, ".pdf") && !EndsWith(u.filename, ".docx")
    ensures ScoreFile(u, jobDescription, remote) == Degraded(ErrorExplanation(UnsupportedFormat))
  {
  }

  // ----------------------------------------------------- status endpoints

  const InvalidStatus := HttpError(400, "Invalid status")
  const ApplicationNotFound := HttpError(404, "Application not found")
  const JobNotFound := HttpError(404, "Job not found")

  const CandidateStatuses: set<string> := {"pending", "shortlisted", "rejected"}

  /** `update_candidate_status`: a status off the whitelist is refused before
      the store is touched; a missing row is 404. */
  method UpdateCandidateStatus(store: Store, appId: string, status: string) returns (r: Result<string, HttpError>)
    requires store.Valid()
    modifies store
    ensures store.Valid()
    ensures status !in CandidateStatuses ==> r == Err(InvalidStatus) && store.applications == old(store.applications)
    ensures status in CandidateStatuses && appId !in old(store.applications) ==> r == Err(ApplicationNotFound)
    ensures status in CandidateStatuses && appId in old(store.applications) ==>
              r == Ok("Status updated to " + status)
              && store.applications == old(store.applications)[appId := old(store.applications)[appId].(status := status)]
    ensures r.Err? ==> store.applications == old(store.applications)
    ensures store.users == old(store.users) && store.tokens == old(store.tokens)
    ensures store.postings == old(store.postings) && store.jobApplications == old(store.jobApplications)
  {
    if status !in CandidateStatuses {
      return Err(InvalidStatus);
    }
    var ok := store.UpdateApplicationStatus(appId, status);
    if !ok {
      return Err(ApplicationNotFound);
    }
    r := Ok("Status updated to " + status);
  }

  /** `update_job_status`: the whitelist is the CHECK's set, so the store never raises. */
  method UpdateJobStatus(store: Store, jobId: string, status: string) returns (r: Result<string, HttpError>)
    requires store.Valid()
    modifies store
    ensures store.Valid()
    ensures status !in PostingStatuses ==> r == Err(InvalidStatus)
    ensures status in PostingStatuses && jobId !in old(store.postings) ==> r == Err(JobNotFound)
    ensures status in PostingStatuses && jobId in old(store.postings) ==>
              r == Ok("Job status updated to " + status)
              && store.postings == old(store.postings)[jobId := old(store.postings)[jobId].(status := status)]
    ensures r.Err? ==> store.postings == old(store.postings)
    ensures store.users == old(store.users) && store.tokens == old(store.tokens)
    ensures store.applications == old(store.applications) && store.jobApplications == old(store.jobApplications)
  {
    if status !in PostingStatuses {
      return Err(InvalidStatus);
    }
    var res := store.UpdateJobPostingStatus(jobId, status);
    if res != Ok(true) {
      return Err(JobNotFound);
    }
    r := Ok("Job status updated to " + status);
  }

  /** `update_job_application_status`, likewise with the five application statuses. */
  method UpdateJobApplicationStatus(store: Store, appId: string, status: string) returns (r: Result<string, HttpError>)
    requires store.Valid()
    modifies store
    ensures store.Valid()
    ensures status !in JobApplicationStatuses ==> r == Err(InvalidStatus)
    ensures status in JobApplicationStatuses && appId !in old(store.jobApplications) ==> r == Err(ApplicationNotFound)
    ensures status in JobApplicationStatuses && appId in old(store.jobApplications) ==>
              r == Ok("Application status updated to " + status)
              && store.jobApplications
                 == old(store.jobApplications)[appId := old(store.jobApplications)[appId].(status := status)]
    ensures r.Err? ==> store.jobApplications == old(store.jobApplications)
    ensures store.users == old(store.users) && store.tokens == old(store.tokens)
    ensures store.applications == old(store.applications) && store.postings == old(store.postings)
  {
    if status !in JobApplicationStatuses {
      return Err(InvalidStatus);
    }
    var res := store.UpdateJobApplicationStatus(appId, status);
    if res != Ok(true) {
      return Err(ApplicationNotFound);
    }
    r := Ok("Application status updated to " + status);
  }

  // ---------------------------------------------------------- applying

  const InvalidToken := HttpError(401, "Invalid or expired token")
  const JobClosed := HttpError(400, "This job is no longer accepting applications")
  const AlreadyApplied := HttpError(400, "You have already applied to this job")
  const BadResumeType := HttpError(400, "Only PDF and DOCX files are allowed")
  const ResumeExtensions: set<string> := {".pdf", ".docx", ".doc"}

  const UploadsBase := "http://localhost:8000/uploads/"

  /** The URL a stored resume is served at, when there is one. */
  function ResumeUrl(path: Option<string>): (r: Option<string>)
    ensures r.Some? <==> Truthy(path)
    ensures r.Some? ==> StartsWith(r.value, UploadsBase) && r.value[|UploadsBase|..] == path.value
  {
    if Truthy(path) then
      var url := UploadsBase + path.value;
      assert url[..|UploadsBase|] == UploadsBase && url[|UploadsBase|..] == path.value;
      Some(url)
    else None
  }

  /** A resume is looked at only when one was sent with a non-empty name. */
  predicate HasResume(resume: Option<Upload>) {
    resume.Some? && resume.value.filename != ""
  }

  /** The checks of `apply_to_job`, in order; the first that fails decides.
      On success: the applicant and the resume's extension, if any. */
  function ApplyGuard(store: Store, jobId: string, token: string, resume: Option<Upload>)
    : (r: Result<(Profile, Option<string>), HttpError>)
    reads store
    ensures store.GetUserByToken(token).None? ==> r == Err(InvalidToken)
    ensures store.GetUserByToken(token).Some? && store.GetJobPostingById(jobId).None? ==> r == Err(JobNotFound)
    ensures (store.GetUserByToken(token).Some? && store.GetJobPostingById(jobId).Some?
             && store.postings[jobId].status != "active") ==> r == Err(JobClosed)
    ensures (store.GetUserByToken(token).Some? && jobId in store.postings && store.postings[jobId].status == "active"
             && store.CheckExistingApplication(jobId, store.GetUserByToken(token).value.id))
            ==> r == Err(AlreadyApplied)
    ensures (store.GetUserByToken(token).Some? && jobId in store.postings && store.postings[jobId].status == "active"
             && !store.CheckExistingApplication(jobId, store.GetUserByToken(token).value.id)
             && HasResume(resume) && Lower(SplitExt(resume.value.filename).1) !in ResumeExtensions)
            ==> r == Err(BadResumeType)
    ensures r.Ok? ==> r.value.0 == store.GetUserByToken(token).value
                      && (r.value.1.Some? <==> HasResume(resume))
                      && (r.value.1.Some? ==> r.value.1.value == SplitExt(resume.value.filename).1
                                              && Lower(r.value.1.value) in ResumeExtensions)
  {
    match store.GetUserByToken(token)
    case None => Err(InvalidToken)
    case Some(user) =>
      match store.GetJobPostingById(jobId)
      case None => Err(JobNotFound)
      case Some(job) =>
        if job.status != "active" then Err(JobClosed)
        else if store.CheckExistingApplication(jobId, user.id) then Err(AlreadyApplied)
        else if !HasResume(resume) then Ok((user, None))
        else
          var ext := SplitExt(resume.value.filename).1;
          if Lower(ext) !in ResumeExtensions then Err(BadResumeType) else Ok((user, Some(ext)))
  }

  /** "CV.PDF" passes the applying check, which lowers the extension, though
      the scoring endpoints refuse it. */
  lemma UpperCaseExtensionAccepted()
    ensures Lower(SplitExt("CV.PDF").1) in ResumeExtensions
    ensures GetTextFromResume(Upload("CV.PDF", [])).Err?
  {
    assert "CV"[0] != '.';
    SplitExtOfName("CV", "PDF");
    assert "CV" + "." + "PDF" == "CV.PDF";
    assert Lower(".PDF") == ".pdf";
    UpperCaseSuffixRefused([]);
  }

  /** An application as returned, with its resume URL when it has a resume. */
  datatype ApplicationView = ApplicationView(application: JobApplication, resumeUrl: Option<string>)

  /** `apply_to_job`: the checks, then the insert; a successful application
      makes every later attempt by the same user at the same job fail. */
  method ApplyToJob(store: Store, jobId: string, token: string, resume: Option<Upload>,
                    applicantName: Option<string>, details: ApplicantDetails, id: string, uuid: string)
    returns (r: Result<ApplicationView, HttpError>)
    requires store.Valid()
    modifies store
    ensures store.Valid()
    ensures old(ApplyGuard(store, jobId, token, resume)).Err? ==>
              r == Err(old(ApplyGuard(store, jobId, token, resume)).error)
              && store.jobApplications == old(store.jobApplications)
    ensures r.Ok? ==>
              var (user, ext) := old(ApplyGuard(store, jobId, token, resume)).value;
              var path := if ext.Some? then Some(uuid + ext.value) else None;
              && r.value.application == JobApplication(id, jobId, user.id,
                   TruthyOr(applicantName, user.fullName),
                   user.email, path, details, "pending")
              && r.value.resumeUrl == ResumeUrl(path)
              && store.jobApplications == old(store.jobApplications)[id := r.value.application]
              && forall resume' :: ApplyGuard(store, jobId, token, resume') == Err(AlreadyApplied)
    ensures old(ApplyGuard(store, jobId, token, resume)).Ok? ==> (r.Ok? <==> id !in old(store.jobApplications))
    ensures old(ApplyGuard(store, jobId, token, resume)).Ok? && id in old(store.jobApplications) ==>
              r == Err(InternalServerError)
    ensures r.Err? ==> store.jobApplications == old(store.jobApplications)
    ensures store.users == old(store.users) && store.tokens == old(store.tokens)
    ensures store.applications == old(store.applications) && store.postings == old(store.postings)
  {
    var guard := ApplyGuard(store, jobId, token, resume);
    if guard.Err? {
      return Err(guard.error);
    }
    var (user, ext) := guard.value;
    var path := if ext.Some? then Some(uuid + ext.value) else None;
    var name := TruthyOr(applicantName, user.fullName);
    assert store.IsUserId(user.id) by {
      var e := store.tokens[token];
      assert store.users[e].profile.id == user.id;
    }
    var created := store.CreateJobApplication(id, jobId, user.id, name, user.email, path, details);
    if created.Err? {
      return Err(InternalServerError);
    }
    r := Ok(ApplicationView(created.value, ResumeUrl(path)));
  }

  // ---------------------------------------------------------- bulk email

  /** The wrapper around a plain-text body. */
  const BodyOpen := "\n        <div style=\"font-family: Arial, sans-serif; font-size: 14px; color: #333; line-height: 1.6;\">\n            "
  const BodyClose := "\n        </div>\n        "

  /** A body with both '<' and '>' is taken as HTML and kept; any other body
      has its newlines turned into `<br>` and is wrapped in a styled div. */
  function FormatBody(body: string): (r: string)
    ensures '<' in body && '>' in body ==> r == body
    ensures !('<' in body && '>' in body) ==>
              && StartsWith(r, BodyOpen) && EndsWith(r, BodyClose)
              && |r| == |BodyOpen| + |body| + 3 * Count(body, '\n') + |BodyClose|
              && r[|BodyOpen|..|r| - |BodyClose|] == ReplaceChar(body, '\n', "<br>")
  {
    if '<' in body && '>' in body then body
    else
      var inner := ReplaceChar(body, '\n', "<br>");
      var r := BodyOpen + inner + BodyClose;
      ReplaceCharLength(body, '\n', "<br>");
      assert r[..|BodyOpen|] == BodyOpen;
      assert r[|r| - |BodyClose|..] == BodyClose;
      assert r[|BodyOpen|..|r| - |BodyClose|] == inner;
      r
  }

  /** The wrapped text holds no newline of the original body. */
  lemma FormattedTextHasNoBodyNewline(body: string)
    requires !('<' in body && '>' in body)
    ensures '\n' !in FormatBody(body)[|BodyOpen|..|FormatBody(body)| - |BodyClose|]
  {
    ReplaceCharRemoves(body, '\n', "<br>");
  }

  /** Formatting twice is formatting once: the wrapper itself holds '<' and '>'. */
  lemma FormatBodyIdempotent(body: string)
    ensures FormatBody(FormatBody(body)) == FormatBody(body)
  {
    if !('<' in body && '>' in body) {
      WrapperHasBrackets(FormatBody(body));
    }
  }

  lemma WrapperHasBrackets(r: string)
    requires EndsWith(r, BodyClose)
    ensures '<' in r && '>' in r
  {
    var k := |r| - |BodyClose|;
    assert r[k..][9] == BodyClose[9] == '<';
    assert r[k..][14] == BodyClose[14] == '>';
    assert r[k + 9] == '<' && r[k + 14] == '>';
  }

  /** The request's fields; the credentials may be absent. */
  datatype BulkEmailRequest = BulkEmailRequest(candidateEmails: seq<string>, subject: string, htmlContent: string,
                                               senderEmail: Option<string>, appPassword: Option<string>)

  /** The settings' `EMAIL_SENDER` and `EMAIL_PASSWORD`; None stands for a
      setting the configuration class does not declare, whose access raises. */
  datatype EmailSettings = EmailSettings(sender: Option<string>, password: Option<string>)

  datatype BulkResponse = BulkResponse(success: bool, results: seq<Email.Entry>, error: Option<string>)

  const NoCredentials := "Email credentials not configured. Please provide them in settings or request."

  /** `request.x or settings.X`: the request's value when non-empty, else the setting. */
  function Credential(fromRequest: Option<string>, fromSettings: Option<string>): (r: Result<string, HttpError>)
    ensures Truthy(fromRequest) ==> r == Ok(fromRequest.value)
    ensures !Truthy(fromRequest) && fromSettings.Some? ==> r == Ok(fromSettings.value)
    ensures !Truthy(fromRequest) && fromSettings.None? ==> r == Err(InternalServerError)
  {
    if Truthy(fromRequest) then Ok(fromRequest.value)
    else if fromSettings.Some? then Ok(fromSettings.value)
    else Err(InternalServerError)
  }

  /** One recipient per address, named "Candidate". */
  function RecipientsOf(emails: seq<string>): (r: seq<Email.Recipient>)
    ensures |r| == |emails|
    ensures forall i :: 0 <= i < |emails| ==> r[i] == Email.Recipient(Some(emails[i]), Some("Candidate"))
  {
    seq(|emails|, i requires 0 <= i < |emails| => Email.Recipient(Some(emails[i]), Some("Candidate")))
  }

  method BuildRecipients(emails: seq<string>) returns (rs: seq<Email.Recipient>)
    ensures rs == RecipientsOf(emails)
  {
    rs := [];
    for i := 0 to |emails|
      invariant |rs| == i
      invariant forall j :: 0 <= j < i ==> rs[j] == Email.Recipient(Some(emails[j]), Some("Candidate"))
    {
      rs := rs + [Email.Recipient(Some(emails[i]), Some("Candidate"))];
    }
  }

  /** The response row of a sent entry and of a failed one. */
  function SentRow(e: Email.Entry): Email.Entry {
    Email.Entry(e.email, "sent", None)
  }

  function FailedRow(e: Email.Entry): Email.Entry {
    Email.Entry(e.email, "failed", e.error)
  }

  /** The formatted results: every success, then every failure, each group in
      its own order. */
  method FormatResults(success: seq<Email.Entry>, failed: seq<Email.Entry>) returns (rows: seq<Email.Entry>)
    ensures |rows| == |success| + |failed|
    ensures forall i :: 0 <= i < |success| ==> rows[i] == SentRow(success[i])
    ensures forall j :: 0 <= j < |failed| ==> rows[|success| + j] == FailedRow(failed[j])
  {
    rows := [];
    for i := 0 to |success|
      invariant |rows| == i
      invariant forall k :: 0 <= k < i ==> rows[k] == SentRow(success[k])
    {
      rows := rows + [SentRow(success[i])];
    }
    for j := 0 to |failed|
      invariant |rows| == |success| + j
      invariant forall k :: 0 <= k < |success| ==> rows[k] == SentRow(success[k])
      invariant forall k :: 0 <= k < j ==> rows[|success| + k] == FailedRow(failed[k])
    {
      rows := rows + [FailedRow(failed[j])];
    }
  }

  /** `send_bulk_email`. */
  method SendBulkEmail(req: BulkEmailRequest, settings: EmailSettings, out: Email.Outside)
    returns (r: Result<BulkResponse, HttpError>)
    ensures Credential(req.senderEmail, settings.sender).Err? ==> r == Err(InternalServerError)
    ensures Credential(req.senderEmail, settings.sender).Ok? && Credential(req.appPassword, settings.password).Err?
            ==> r == Err(InternalServerError)
    ensures Credential(req.senderEmail, settings.sender).Ok? && Credential(req.appPassword, settings.password).Ok? ==>
              var sender := Credential(req.senderEmail, settings.sender).value;
              var password := Credential(req.appPassword, settings.password).value;
              && (sender == "" || password == "" ==> r == Ok(BulkResponse(false, [], Some(NoCredentials))))
              && (sender != "" && password != "" ==>
                    var sent := Email.BulkResult(RecipientsOf(req.candidateEmails), sender, req.subject,
                                                 FormatBody(req.htmlContent), true, out);
                    && r.Ok? && r.value.success && r.value.error.None?
                    && |r.value.results| == |sent.0| + |sent.1|
                    && (forall i :: 0 <= i < |sent.0| ==> r.value.results[i] == SentRow(sent.0[i]))
                    && (forall j :: 0 <= j < |sent.1| ==> r.value.results[|sent.0| + j] == FailedRow(sent.1[j])))
  {
    var s := Credential(req.senderEmail, settings.sender);
    if s.Err? {
      return Err(InternalServerError);
    }
    var p := Credential(req.appPassword, settings.password);
    if p.Err? {
      return Err(InternalServerError);
    }
    var sender, password := s.value, p.value;
    if sender == "" || password == "" {
      return Ok(BulkResponse(false, [], Some(NoCredentials)));
    }
    var service := new Email.EmailService(sender, password);
    var recipients := BuildRecipients(req.candidateEmails);
    var body := FormatBody(req.htmlContent);
    var success, failed := service.SendBulk(recipients, req.subject, body, true, out);
    var rows := FormatResults(success, failed);
    r := Ok(BulkResponse(true, rows, None));
  }

  /** With no addresses nothing is sent and the response lists nothing. */
  lemma NoAddressesNoResults(sender: string, subject: string, html: string, out: Email.Outside)
    ensures Email.BulkResult(RecipientsOf([]), sender, subject, FormatBody(html), true, out) == ([], [])
  {
  }
}
