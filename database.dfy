/** app/database.py: the PostgreSQL tables as in-memory maps keyed by their
    primary keys, and the operations on them. Random ids and tokens, the
    password hash and the aggregates the database computes are passed in;
    constraint violations, which psycopg2 raises as `IntegrityError`, are
    modelled as `Err(IntegrityError)` with the store unchanged. */
module Database {
  import opened Common
  import opened Text

  /** A user without the password hash, as the token lookup returns it. */
  datatype Profile = Profile(id: string, email: string, fullName: string, role: string,
                             phone: Option<string>, resumeUrl: Option<string>)

  /** A row of `users`. */
  datatype User = User(profile: Profile, passwordHash: string)

  /** A row of `applications` (a scored resume). */
  datatype Application = Application(id: string, candidateName: string, candidateEmail: Option<string>,
                                     jobRole: string, score: int, matchDetails: string, status: string,
                                     resumePath: Option<string>)

  /** A row of `job_postings`. */
  datatype Posting = Posting(id: string, title: string, companyName: string, description: string,
                             experienceLevel: Option<string>, location: Option<string>,
                             responsibilities: Option<string>, skills: Option<string>,
                             status: string, createdBy: Option<string>)

  /** The optional fields an applicant fills in. */
  datatype ApplicantDetails = ApplicantDetails(
    coverLetter: Option<string>, relevantExperience: Option<string>, overallExperience: Option<string>,
    currentLocation: Option<string>, preferredLocation: Option<string>, currentCtc: Option<string>,
    expectedCtc: Option<string>, currentCompany: Option<string>, noticePeriod: Option<string>)

  /** A row of `job_applications`. */
  datatype JobApplication = JobApplication(id: string, jobId: string, candidateId: string,
                                           candidateName: string, candidateEmail: string,
                                           resumePath: Option<string>, details: ApplicantDetails,
                                           status: string)

  /** A job application with the posting's title and company from the left join. */
  datatype JoinedApplication = JoinedApplication(application: JobApplication, jobTitle: Option<string>,
                                                 companyName: Option<string>)

  /** A violated PRIMARY KEY, UNIQUE, CHECK or FOREIGN KEY constraint, or a
      value the column type cannot hold. */
  datatype DbError = IntegrityError | DataError

  /** The range of PostgreSQL's INTEGER. */
  predicate InIntegerRange(n: int) {
    -0x8000_0000 <= n < 0x8000_0000
  }

  /** A Python float reaches the INTEGER column as a numeric literal, which
      PostgreSQL rounds to the nearest integer, halves away from zero. */
  function ToIntegerColumn(x: real): (r: int)
    ensures -0.5 <= x - r as real <= 0.5
    ensures x - r as real == 0.5 ==> x < 0.0
    ensures x - r as real == -0.5 ==> x > 0.0
  {
    if x >= 0.0 then (x + 0.5).Floor else -((-x + 0.5).Floor)
  }

  /** The values the CHECK constraints admit. */
  const Roles: set<string> := {"hr", "candidate"}
  const PostingStatuses: set<string> := {"active", "closed", "draft"}
  const JobApplicationStatuses: set<string> := {"pending", "reviewed", "shortlisted", "rejected", "hired"}

  // ---------------------------------------------------------------- stats

  /** The stats loop: a row overwrites a stat only when its status is
      already one of the stat names. */
  function Overwrite(stats: map<string, int>, rows: seq<(string, int)>): (r: map<string, int>)
    ensures r.Keys == stats.Keys
    decreases |rows|
  {
    if rows == [] then stats
    else
      var p := Overwrite(stats, rows[..|rows| - 1]);
      var row := rows[|rows| - 1];
      if row.0 in p then p[row.0 := row.1] else p
  }

  /** One more row: the stats of a prefix, with that row applied. */
  lemma OverwriteSnoc(stats: map<string, int>, rows: seq<(string, int)>, i: nat)
    requires i < |rows|
    ensures var p := Overwrite(stats, rows[..i]);
            Overwrite(stats, rows[..i + 1]) == if rows[i].0 in p then p[rows[i].0 := rows[i].1] else p
  {
    assert rows[..i + 1][..i] == rows[..i];
  }

  predicate DistinctStatuses(rows: seq<(string, int)>) {
    forall i, j :: 0 <= i < j < |rows| ==> rows[i].0 != rows[j].0
  }

  /** A stat no row names keeps its initial value. */
  lemma {:induction false} OverwriteMiss(stats: map<string, int>, rows: seq<(string, int)>, k: string)
    requires k in stats
    requires forall i :: 0 <= i < |rows| ==> rows[i].0 != k
    ensures Overwrite(stats, rows)[k] == stats[k]
    decreases |rows|
  {
    if rows != [] {
      OverwriteMiss(stats, rows[..|rows| - 1], k);
    }
  }

  /** With distinct statuses, the one row naming a stat sets it. */
  lemma {:induction false} OverwriteHit(stats: map<string, int>, rows: seq<(string, int)>, i: nat)
    requires DistinctStatuses(rows)
    requires i < |rows| && rows[i].0 in stats
    ensures Overwrite(stats, rows)[rows[i].0] == rows[i].1
    decreases |rows|
  {
    var init := rows[..|rows| - 1];
    if i < |rows| - 1 {
      assert init[i] == rows[i];
      OverwriteHit(stats, init, i);
    } else {
      assert forall j :: 0 <= j < |init| ==> init[j] == rows[j];
    }
  }

  /** `int(x)` on the average: truncation toward zero. */
  function Truncate(x: real): (r: int)
    ensures x >= 0.0 ==> r as real <= x < r as real + 1.0
    ensures x < 0.0 ==> r as real - 1.0 < x <= r as real
  {
    if x >= 0.0 then x.Floor else -((-x).Floor)
  }

  /** The ids of the rows whose status is `s`. */
  function ApplicationsWithStatus(apps: map<string, Application>, s: string): set<string> {
    set id | id in apps && apps[id].status == s
  }

  function JobApplicationsWithStatus(apps: map<string, JobApplication>, s: string): set<string> {
    set id | id in apps && apps[id].status == s
  }

  /** `rows` is what `SELECT status, COUNT(*) ... GROUP BY status` returns, in
      some order: each status present once, with its count. */
  predicate IsApplicationGroupBy(apps: map<string, Application>, rows: seq<(string, int)>) {
    && DistinctStatuses(rows)
    && (forall i :: 0 <= i < |rows| ==> rows[i].1 == |ApplicationsWithStatus(apps, rows[i].0)| > 0)
    && (forall id :: id in apps ==> exists i :: 0 <= i < |rows| && rows[i].0 == apps[id].status)
  }

  predicate IsJobApplicationGroupBy(apps: map<string, JobApplication>, rows: seq<(string, int)>) {
    && DistinctStatuses(rows)
    && (forall i :: 0 <= i < |rows| ==> rows[i].1 == |JobApplicationsWithStatus(apps, rows[i].0)| > 0)
    && (forall id :: id in apps ==> exists i :: 0 <= i < |rows| && rows[i].0 == apps[id].status)
  }

  /** The dashboard stats before the group-by rows are applied. */
  function ApplicationStatsBase(apps: map<string, Application>, avg: Option<real>): map<string, int> {
    map["total" := |apps|, "shortlisted" := 0, "rejected" := 0, "pending" := 0,
        "avg_score" := if avg.Some? then Truncate(avg.value) else 0]
  }

  /** A stat equals the number of rows with that status: applied when a row
      carries the status, and left at zero when none does. */
  lemma ApplicationStatCount(apps: map<string, Application>, avg: Option<real>,
                             rows: seq<(string, int)>, k: string)
    requires IsApplicationGroupBy(apps, rows)
    requires k in {"shortlisted", "rejected", "pending"}
    ensures Overwrite(ApplicationStatsBase(apps, avg), rows)[k] == |ApplicationsWithStatus(apps, k)|
  {
    var base := ApplicationStatsBase(apps, avg);
    if i :| 0 <= i < |rows| && rows[i].0 == k {
      OverwriteHit(base, rows, i);
    } else {
      OverwriteMiss(base, rows, k);
      assert ApplicationsWithStatus(apps, k) == {} by {
        forall id | id in apps ensures apps[id].status != k {
          var i :| 0 <= i < |rows| && rows[i].0 == apps[id].status;
        }
      }
    }
  }

  /** `total` and `avg_score` keep their aggregate values unless some row's
      status is literally "total" or "avg_score", which the table does not forbid. */
  lemma ApplicationTotals(apps: map<string, Application>, avg: Option<real>, rows: seq<(string, int)>)
    requires IsApplicationGroupBy(apps, rows)
    requires forall id :: id in apps ==> apps[id].status != "total" && apps[id].status != "avg_score"
    ensures Overwrite(ApplicationStatsBase(apps, avg), rows)["total"] == |apps|
    ensures Overwrite(ApplicationStatsBase(apps, avg), rows)["avg_score"]
            == if avg.Some? then Truncate(avg.value) else 0
  {
    var base := ApplicationStatsBase(apps, avg);
    forall i | 0 <= i < |rows| ensures rows[i].0 != "total" && rows[i].0 != "avg_score" {
      var id :| id in ApplicationsWithStatus(apps, rows[i].0);
    }
    OverwriteMiss(base, rows, "total");
    OverwriteMiss(base, rows, "avg_score");
  }

  /** The job-application stats before the rows are applied (the job counts
      are filled in after the loop). */
  function JobStatsBase(apps: map<string, JobApplication>): map<string, int> {
    map["total_applications" := |apps|, "pending" := 0, "reviewed" := 0, "shortlisted" := 0,
        "rejected" := 0, "hired" := 0, "total_jobs" := 0, "active_jobs" := 0]
  }

  function ActivePostings(postings: map<string, Posting>): set<string> {
    set id | id in postings && postings[id].status == "active"
  }

  /** Every job-application status stat is the count of its status: applied
      when a row carries it, and left at zero when none does. */
  lemma JobApplicationStatCount(apps: map<string, JobApplication>, rows: seq<(string, int)>, k: string)
    requires IsJobApplicationGroupBy(apps, rows)
    requires k in JobApplicationStatuses
    ensures Overwrite(JobStatsBase(apps), rows)[k] == |JobApplicationsWithStatus(apps, k)|
  {
    var base := JobStatsBase(apps);
    if i :| 0 <= i < |rows| && rows[i].0 == k {
      OverwriteHit(base, rows, i);
    } else {
      OverwriteMiss(base, rows, k);
      JobStatusStartsAtZero(apps, k);
      assert JobApplicationsWithStatus(apps, k) == {} by {
        forall id | id in apps ensures apps[id].status != k {
          var i :| 0 <= i < |rows| && rows[i].0 == apps[id].status;
        }
      }
    }
  }

  /** Every job-application status starts at zero in the stats dictionary. */
  lemma JobStatusStartsAtZero(apps: map<string, JobApplication>, k: string)
    requires k in JobApplicationStatuses
    ensures k in JobStatsBase(apps) && JobStatsBase(apps)[k] == 0
  {
  }

  /** `total_applications` keeps the row count: the CHECK constraint keeps
      every status, and so every group-by row, away from that key. */
  lemma JobApplicationTotal(apps: map<string, JobApplication>, rows: seq<(string, int)>)
    requires IsJobApplicationGroupBy(apps, rows)
    requires forall id :: id in apps ==> apps[id].status in JobApplicationStatuses
    ensures Overwrite(JobStatsBase(apps), rows)["total_applications"] == |apps|
  {
    forall i | 0 <= i < |rows| ensures rows[i].0 in JobApplicationStatuses {
      var withStatus := JobApplicationsWithStatus(apps, rows[i].0);
      assert |withStatus| > 0;
      var id :| id in withStatus;
    }
    assert "total_applications" !in JobApplicationStatuses;
    OverwriteMiss(JobStatsBase(apps), rows, "total_applications");
  }

  /** Inserting a scored resume: the score is converted to the INTEGER column
      first (an out-of-range value is a `DataError`), a taken id breaks the
      primary key, and otherwise the row starts as 'pending'. */
  function ApplicationInsert(apps: map<string, Application>, id: string, candidateName: string, score: real,
                             matchDetails: string, jobRole: string, candidateEmail: Option<string>,
                             resumePath: Option<string>): (r: Result<Application, DbError>)
    ensures r == Err(DataError) <==> !InIntegerRange(ToIntegerColumn(score))
    ensures r == Err(IntegrityError) <==> InIntegerRange(ToIntegerColumn(score)) && id in apps
    ensures r.Ok? ==> r.value.id == id && r.value.status == "pending" && r.value.score == ToIntegerColumn(score)
    ensures r.Ok? ==> r.value == Application(id, candidateName, candidateEmail, jobRole, ToIntegerColumn(score),
                                             matchDetails, "pending", resumePath)
  {
    var column := ToIntegerColumn(score);
    if !InIntegerRange(column) then Err(DataError)
    else if id in apps then Err(IntegrityError)
    else Ok(Application(id, candidateName, candidateEmail, jobRole, column, matchDetails, "pending", resumePath))
  }

  // ---------------------------------------------------------------- store

  class Store {
    var users: map<string, User>
    var tokens: map<string, string>
    var applications: map<string, Application>
    var postings: map<string, Posting>
    var jobApplications: map<string, JobApplication>

    /** Keys match the rows, emails are stored lowercased, and the CHECK and
        FOREIGN KEY constraints hold. */
    predicate Valid()
      reads this
    {
      UsersValid() && TokensValid() && ApplicationsValid() && PostingsValid() && JobApplicationsValid()
    }

    /** Users are keyed by their lowercased email and carry an allowed role. */
    predicate UsersValid()
      reads this`users
    {
      forall e :: e in users ==> users[e].profile.email == e && Lower(e) == e && users[e].profile.role in Roles
    }

    /** Every token names a user (foreign key). */
    predicate TokensValid()
      reads this`tokens, this`users
    {
      forall t :: t in tokens ==> tokens[t] in users
    }

    predicate ApplicationsValid()
      reads this`applications
    {
      forall id :: id in applications ==> applications[id].id == id
    }

    /** Postings: the status CHECK and the creator foreign key. */
    predicate PostingsValid()
      reads this`postings, this`users
    {
      forall id :: id in postings ==>
        && postings[id].id == id
        && postings[id].status in PostingStatuses
        && (postings[id].createdBy.Some? ==> IsUserId(postings[id].createdBy.value))
    }

    /** Job applications: the status CHECK and the job and candidate foreign keys. */
    predicate JobApplicationsValid()
      reads this`jobApplications, this`postings, this`users
    {
      forall id :: id in jobApplications ==>
        && jobApplications[id].id == id
        && jobApplications[id].status in JobApplicationStatuses
        && jobApplications[id].jobId in postings
        && IsUserId(jobApplications[id].candidateId)
    }

    predicate IsUserId(id: string)
      reads this`users
    {
      exists e :: e in users && users[e].profile.id == id
    }

    constructor()
      ensures Valid()
      ensures users == map[] && tokens == map[] && applications == map[]
      ensures postings == map[] && jobApplications == map[]
    {
      users, tokens, applications, postings, jobApplications := map[], map[], map[], map[], map[];
    }

    // ----------------------------------------------------- applications

    /** `create_application`: the insert `ApplicationInsert` describes. */
    method CreateApplication(id: string, candidateName: string, score: real, matchDetails: string,
                             jobRole: string, candidateEmail: Option<string>, resumePath: Option<string>)
      returns (r: Result<Application, DbError>)
      requires Valid()
      modifies this
      ensures Valid()
      ensures r == ApplicationInsert(old(applications), id, candidateName, score, matchDetails,
                                     jobRole, candidateEmail, resumePath)
      ensures applications == if r.Ok? then old(applications)[id := r.value] else old(applications)
      ensures users == old(users) && tokens == old(tokens)
      ensures postings == old(postings) && jobApplications == old(jobApplications)
    {
      var column := ToIntegerColumn(score);
      if !InIntegerRange(column) {
        return Err(DataError);
      }
      if id in applications {
        return Err(IntegrityError);
      }
      var row := Application(id, candidateName, candidateEmail, jobRole, column, matchDetails, "pending", resumePath);
      applications := applications[id := row];
      r := Ok(row);
    }

    /** `update_application_status`: true iff the row exists; only its status changes. */
    method UpdateApplicationStatus(id: string, status: string) returns (updated: bool)
      requires Valid()
      modifies this
      ensures Valid()
      ensures updated <==> id in old(applications)
      ensures updated ==> applications == old(applications)[id := old(applications)[id].(status := status)]
      ensures !updated ==> applications == old(applications)
      ensures users == old(users) && tokens == old(tokens)
      ensures postings == old(postings) && jobApplications == old(jobApplications)
    {
      updated := id in applications;
      if updated {
        applications := applications[id := applications[id].(status := status)];
      }
    }

    /** `get_application_stats`: the base stats overwritten by the group-by rows. */
    method GetApplicationStats(rows: seq<(string, int)>, avg: Option<real>) returns (stats: map<string, int>)
      requires IsApplicationGroupBy(applications, rows)
      ensures stats.Keys == {"total", "shortlisted", "rejected", "pending", "avg_score"}
      ensures stats == Overwrite(ApplicationStatsBase(applications, avg), rows)
    {
      ghost var base := ApplicationStatsBase(applications, avg);
      stats := ApplicationStatsBase(applications, avg);
      assert rows[..0] == [];
      for i := 0 to |rows|
        invariant stats == Overwrite(base, rows[..i])
      {
        OverwriteSnoc(base, rows, i);
        var (status, count) := rows[i];
        if status in stats {
          stats := stats[status := count];
        }
      }
      assert rows[..|rows|] == rows;
    }

    // ------------------------------------------------------------ users

    /** `get_user_by_email`: the lookup lowercases its key. */
    function GetUserByEmail(email: string): (r: Option<User>)
      reads this
      ensures r.Some? <==> Lower(email) in users
      ensures r.Some? ==> r.value == users[Lower(email)]
    {
      if Lower(email) in users then Some(users[Lower(email)]) else None
    }

    /** `verify_password`: false for an unknown email, else whether the hashes agree. */
    predicate VerifyPassword(email: string, password: string, hash: string -> string)
      reads this
    {
      GetUserByEmail(email).Some? && GetUserByEmail(email).value.passwordHash == hash(password)
    }

    /** `create_user`: None when the lowercased email is taken, the role is not
        one the CHECK admits, or the random id collides, since every one of
        these is an `IntegrityError`, which is caught. Otherwise the new user
        can log in with the password under any casing of the email. */
    method CreateUser(email: string, password: string, fullName: string, role: string,
                      phone: Option<string>, resumeUrl: Option<string>, id: string, hash: string -> string)
      returns (r: Option<Profile>)
      requires Valid()
      modifies this
      ensures Valid()
      ensures r.None? <==> Lower(email) in old(users) || role !in Roles || old(IsUserId(id))
      ensures r.Some? ==> r.value == Profile(id, Lower(email), fullName, role, phone, resumeUrl)
      ensures r.Some? ==> users == old(users)[Lower(email) := User(r.value, hash(password))]
      ensures r.Some? ==> VerifyPassword(email, password, hash)
      ensures r.None? ==> users == old(users)
      ensures tokens == old(tokens) && applications == old(applications)
      ensures postings == old(postings) && jobApplications == old(jobApplications)
    {
      var key := Lower(email);
      if key in users || role !in Roles || IsUserId(id) {
        return None;
      }
      var profile := Profile(id, key, fullName, role, phone, resumeUrl);
      LowerIdempotent(email);
      users := users[key := User(profile, hash(password))];
      assert IsUserId(id) by { assert users[key].profile.id == id; }
      forall id' | old(IsUserId(id')) ensures IsUserId(id') {
        var e :| e in old(users) && old(users)[e].profile.id == id';
        assert users[e].profile.id == id';
      }
      r := Some(profile);
    }

    // ----------------------------------------------------------- tokens

    /** `get_user_by_token`: the joined user of the token, without the hash. */
    function GetUserByToken(token: string): (r: Option<Profile>)
      reads this
      ensures r.Some? <==> token in tokens && tokens[token] in users
      ensures r.Some? ==> r.value == users[tokens[token]].profile
    {
      if token in tokens && tokens[token] in users then Some(users[tokens[token]].profile) else None
    }

    /** `create_token`: records the lowercased email, after which the token
        resolves to that user; an unknown email breaks the foreign key. */
    method CreateToken(email: string, token: string) returns (r: Result<string, DbError>)
      requires Valid()
      modifies this
      ensures Valid()
      ensures r.Err? <==> Lower(email) !in old(users) || token in old(tokens)
      ensures r.Ok? ==> r.value == token && tokens == old(tokens)[token := Lower(email)]
      ensures r.Ok? ==> Lower(email) in users && GetUserByToken(token) == Some(users[Lower(email)].profile)
      ensures r.Err? ==> tokens == old(tokens)
      ensures users == old(users) && applications == old(applications)
      ensures postings == old(postings) && jobApplications == old(jobApplications)
    {
      var key := Lower(email);
      if key !in users || token in tokens {
        return Err(IntegrityError);
      }
      tokens := tokens[token := key];
      r := Ok(token);
    }

    /** `delete_token`: true iff a row went; the token resolves to nobody after. */
    method DeleteToken(token: string) returns (deleted: bool)
      requires Valid()
      modifies this
      ensures Valid()
      ensures deleted <==> token in old(tokens)
      ensures tokens == old(tokens) - {token}
      ensures GetUserByToken(token) == None
      ensures users == old(users) && applications == old(applications)
      ensures postings == old(postings) && jobApplications == old(jobApplications)
    {
      deleted := token in tokens;
      tokens := tokens - {token};
    }

    // --------------------------------------------------------- postings

    /** `create_job_posting`; `status` defaults to 'active' at every call site. */
    method CreateJobPosting(id: string, title: string, companyName: string, description: string,
                            experienceLevel: Option<string>, location: Option<string>,
                            responsibilities: Option<string>, skills: Option<string>,
                            createdBy: Option<string>, status: string := "active")
      returns (r: Result<Posting, DbError>)
      requires Valid()
      modifies this
      ensures Valid()
      ensures r.Err? <==> id in old(postings) || status !in PostingStatuses
                          || (createdBy.Some? && !old(IsUserId(createdBy.value)))
      ensures r.Ok? ==> r.value == Posting(id, title, companyName, description, experienceLevel, location,
                                           responsibilities, skills, status, createdBy)
      ensures r.Ok? ==> postings == old(postings)[id := r.value]
      ensures r.Err? ==> postings == old(postings)
      ensures users == old(users) && tokens == old(tokens)
      ensures applications == old(applications) && jobApplications == old(jobApplications)
    {
      if id in postings || status !in PostingStatuses || (createdBy.Some? && !IsUserId(createdBy.value)) {
        return Err(IntegrityError);
      }
      var row := Posting(id, title, companyName, description, experienceLevel, location,
                         responsibilities, skills, status, createdBy);
      postings := postings[id := row];
      r := Ok(row);
    }

    function GetJobPostingById(id: string): (r: Option<Posting>)
      reads this
      ensures r.Some? <==> id in postings
      ensures r.Some? ==> r.value == postings[id]
    {
      if id in postings then Some(postings[id]) else None
    }

    /** `get_all_job_postings`: all postings, or those with the given status
        when it is non-empty. */
    function GetAllJobPostings(status: Option<string>): (r: set<Posting>)
      reads this
      ensures forall p :: p in r <==> p in postings.Values && (!Truthy(status) || p.status == status.value)
    {
      set p | p in postings.Values && (!Truthy(status) || p.status == status.value)
    }

    /** `update_job_posting_status`: false for a missing id; a status outside
        the CHECK raises for an existing row; otherwise only that status changes. */
    method UpdateJobPostingStatus(id: string, status: string) returns (r: Result<bool, DbError>)
      requires Valid()
      modifies this
      ensures Valid()
      ensures r == (if id !in old(postings) then Ok(false)
                    else if status !in PostingStatuses then Err(IntegrityError)
                    else Ok(true))
      ensures r == Ok(true) ==> postings == old(postings)[id := old(postings)[id].(status := status)]
      ensures r != Ok(true) ==> postings == old(postings)
      ensures users == old(users) && tokens == old(tokens)
      ensures applications == old(applications) && jobApplications == old(jobApplications)
    {
      if id !in postings {
        return Ok(false);
      }
      if status !in PostingStatuses {
        return Err(IntegrityError);
      }
      postings := postings[id := postings[id].(status := status)];
      r := Ok(true);
    }

    predicate IsReferenced(jobId: string)
      reads this
    {
      exists a :: a in jobApplications && jobApplications[a].jobId == jobId
    }

    /** `delete_job_posting`: false for a missing id; a posting that has
        applications cannot go (the foreign key raises); otherwise it is removed. */
    method DeleteJobPosting(id: string) returns (r: Result<bool, DbError>)
      requires Valid()
      modifies this
      ensures Valid()
      ensures r == (if id !in old(postings) then Ok(false)
                    else if old(IsReferenced(id)) then Err(IntegrityError)
                    else Ok(true))
      ensures postings == if r == Ok(true) then old(postings) - {id} else old(postings)
      ensures GetJobPostingById(id) == if r.Err? then old(GetJobPostingById(id)) else None
      ensures users == old(users) && tokens == old(tokens)
      ensures applications == old(applications) && jobApplications == old(jobApplications)
    {
      if id !in postings {
        return Ok(false);
      }
      if IsReferenced(id) {
        return Err(IntegrityError);
      }
      postings := postings - {id};
      r := Ok(true);
    }

    // ------------------------------------------------- job applications

    /** `check_existing_application`. */
    predicate CheckExistingApplication(jobId: string, candidateId: string)
      reads this
    {
      exists id :: id in jobApplications && jobApplications[id].jobId == jobId
                   && jobApplications[id].candidateId == candidateId
    }

    /** `create_job_application`: a new 'pending' row, after which the
        duplicate check for the same job and candidate answers true. */
    method CreateJobApplication(id: string, jobId: string, candidateId: string, candidateName: string,
                                candidateEmail: string, resumePath: Option<string>, details: ApplicantDetails)
      returns (r: Result<JobApplication, DbError>)
      requires Valid()
      modifies this
      ensures Valid()
      ensures r.Err? <==> id in old(jobApplications) || jobId !in old(postings) || !old(IsUserId(candidateId))
      ensures r.Ok? ==> r.value == JobApplication(id, jobId, candidateId, candidateName, candidateEmail,
                                                  resumePath, details, "pending")
      ensures r.Ok? ==> jobApplications == old(jobApplications)[id := r.value]
      ensures r.Ok? ==> CheckExistingApplication(jobId, candidateId)
      ensures r.Err? ==> jobApplications == old(jobApplications)
      ensures users == old(users) && tokens == old(tokens)
      ensures applications == old(applications) && postings == old(postings)
    {
      if id in jobApplications || jobId !in postings || !IsUserId(candidateId) {
        return Err(IntegrityError);
      }
      var row := JobApplication(id, jobId, candidateId, candidateName, candidateEmail, resumePath, details, "pending");
      jobApplications := jobApplications[id := row];
      assert jobApplications[id] == row;
      r := Ok(row);
    }

    /** A job application with its posting's title and company, or None for
        both when the posting is missing. */
    function Joined(a: JobApplication): (r: JoinedApplication)
      reads this
      ensures r.application == a
      ensures r.jobTitle.Some? <==> a.jobId in postings
      ensures a.jobId in postings ==> r.jobTitle == Some(postings[a.jobId].title)
                                      && r.companyName == Some(postings[a.jobId].companyName)
    {
      if a.jobId in postings then
        JoinedApplication(a, Some(postings[a.jobId].title), Some(postings[a.jobId].companyName))
      else JoinedApplication(a, None, None)
    }

    /** `get_all_job_applications`: all rows, or a non-empty `job_id`'s rows. */
    function GetAllJobApplications(jobId: Option<string>): (r: set<JoinedApplication>)
      reads this
      ensures forall j :: j in r <==>
                j.application in jobApplications.Values && j == Joined(j.application)
                && (!Truthy(jobId) || j.application.jobId == jobId.value)
    {
      set a | a in jobApplications.Values && (!Truthy(jobId) || a.jobId == jobId.value) :: Joined(a)
    }

    /** `get_job_applications_by_candidate`. */
    function GetJobApplicationsByCandidate(candidateId: string): (r: set<JoinedApplication>)
      reads this
      ensures forall j :: j in r <==>
                j.application in jobApplications.Values && j == Joined(j.application)
                && j.application.candidateId == candidateId
    {
      set a | a in jobApplications.Values && a.candidateId == candidateId :: Joined(a)
    }

    function GetJobApplicationById(id: string): (r: Option<JoinedApplication>)
      reads this
      ensures r.Some? <==> id in jobApplications
      ensures r.Some? ==> r.value == Joined(jobApplications[id])
    {
      if id in jobApplications then Some(Joined(jobApplications[id])) else None
    }

    /** `update_job_application_status`, like the posting's. */
    method UpdateJobApplicationStatus(id: string, status: string) returns (r: Result<bool, DbError>)
      requires Valid()
      modifies this
      ensures Valid()
      ensures r == (if id !in old(jobApplications) then Ok(false)
                    else if status !in JobApplicationStatuses then Err(IntegrityError)
                    else Ok(true))
      ensures r == Ok(true) ==>
                jobApplications == old(jobApplications)[id := old(jobApplications)[id].(status := status)]
      ensures r != Ok(true) ==> jobApplications == old(jobApplications)
      ensures users == old(users) && tokens == old(tokens)
      ensures applications == old(applications) && postings == old(postings)
    {
      if id !in jobApplications {
        return Ok(false);
      }
      if status !in JobApplicationStatuses {
        return Err(IntegrityError);
      }
      jobApplications := jobApplications[id := jobApplications[id].(status := status)];
      r := Ok(true);
    }

    /** `get_job_application_stats`: the rows overwrite the status stats, then
        the job counts are set. */
    method GetJobApplicationStats(rows: seq<(string, int)>) returns (stats: map<string, int>)
      requires IsJobApplicationGroupBy(jobApplications, rows)
      ensures stats.Keys == JobStatsBase(jobApplications).Keys
      ensures stats == Overwrite(JobStatsBase(jobApplications), rows)
                         ["total_jobs" := |postings|]["active_jobs" := |ActivePostings(postings)|]
    {
      ghost var base := JobStatsBase(jobApplications);
      stats := JobStatsBase(jobApplications);
      assert rows[..0] == [];
      for i := 0 to |rows|
        invariant stats == Overwrite(base, rows[..i])
      {
        OverwriteSnoc(base, rows, i);
        var (status, count) := rows[i];
        if status in stats {
          stats := stats[status := count];
        }
      }
      assert rows[..|rows|] == rows;
      stats := stats["total_jobs" := |postings|];
      stats := stats["active_jobs" := |ActivePostings(postings)|];
    }
  }
}
