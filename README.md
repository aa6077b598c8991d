# HRProject core in Dafny

A model of the deterministic core of HRProject, a FastAPI back end for hiring. Recruiters use it to score resumes against a job description with OCR and a language model, write job descriptions, publish job postings and send bulk email. Candidates use it to apply to postings. Every remote service becomes a parameter of the model:

- Mistral OCR;
- the Azure OpenAI chat model;
- JSON parsing of its reply;
- python-docx;
- SMTP;
- the Azure Blob SDK.

What the model does with the results of those services follows the Python code line by line.

One module per source file:

| module | source | form |
|---|---|---|
| `Common` | — | `Option`, `Result`, `HttpError(status, detail)` and `str(HTTPException)` as `"<status>: <detail>"` |
| `Text` | — | the Python string operations the code relies on (`strip`, `split`, `join`, `replace`, `endswith`, `lower`, `find`) with their laws |
| `Base64` | — | RFC 4648 section 4 base 64, encoder and decoder, with the round trip proved |
| `Utils` | app/utils.py | pure functions |
| `Services` | app/services.py | pure functions over a `Remote` record of service outcomes |
| `Blob` | app/blob_service.py | a `BlobService` class; the connection-string loop is a method proved against a fold |
| `Email` | app/email_service.py | an `EmailService` class; `SendBulk` is a loop proved against a fold |
| `Database` | app/database.py | a `Store` class holding one map per table; an invariant `Valid()` carries the keys, UNIQUE, CHECK and FOREIGN KEY constraints |
| `Api` | app/main.py | the handlers: loops as methods, guards as functions |

SQL is modelled by what each statement does to its table:

- A statement that would violate a constraint returns `Err(IntegrityError)` and leaves the store unchanged.
- An INTEGER out of range returns `Err(DataError)`.
- A score sent into the INTEGER `score` column is rounded half away from zero, as PostgreSQL rounds a numeric literal.

Random ids, tokens and uuids, and the password hash, are parameters. The group-by rows that the stats queries return are parameters tied to the tables by a predicate.

## Model

| member | source | states |
|---|---|---|
| Base64.DecodeEncode | app/utils.py:7-9 | decoding the base 64 encoding of any byte string gives back the bytes |
| Base64.EncodeShape | app/utils.py:7-9 | the encoding has 4·⌈n/3⌉ characters drawn from the RFC 4648 alphabet, with `=` only in the last two positions |
| Base64.EncodeInjective | app/utils.py:7-9 | distinct byte strings have distinct encodings |
| Utils.EncodePdfFromBytes | app/utils.py:7-9 | the text is standard base 64: length 4·⌈n/3⌉, canonical shape, decodes to the input |
| Utils.GetTextFromResume | app/utils.py:19-32 | ".pdf" suffix gives the bytes unchanged with "pdf"; otherwise ".docx" gives them with "docx"; an error exactly when neither suffix matches, and that error is 400 "Unsupported file format…" |
| Utils.UpperCaseSuffixRefused | app/utils.py:27-32 | the suffix test is case-sensitive: "CV.PDF" is refused with the 400 |
| Utils.ExtractTextFromDocx | app/utils.py:11-17 | the parser failing is exactly the error case, which is 500 "Error processing DOCX file: …"; otherwise the text is the paragraph texts joined by "\n" (so no paragraphs give ""), and when no paragraph holds a newline, splitting it on "\n" gives back the paragraphs and it holds k−1 newlines |
| Services.PdfDataUrl | app/services.py:29-36 | the document URL is "data:application/pdf;base64," followed by text that decodes to the file bytes |
| Services.PageTexts | app/services.py:47 | one text per page, in page order; a page without markdown gives "" |
| Services.ExtractResumeText | app/services.py:22-69 | "pdf": the OCR page texts joined by single spaces, or 500 "OCR processing failed: …"; "docx": the DOCX result unchanged; any other type: "" and no error; blank text is returned, not refused |
| Services.OcrTextLayout | app/services.py:47 | in the joined text, page i sits at its offset and a single space follows every page but the last, so an empty page still contributes its separator |
| Services.OcrTextLength | app/services.py:47 | the joined text's length is the page lengths plus one per gap |
| Services.NoPagesIsEmptyText | app/services.py:47 | an OCR reply without pages gives the empty text, not an error |
| Services.GetLlmScore | app/services.py:71-100 | the model's failure gives 500 "An error occurred with the LLM: …"; an unparseable reply gives 500 "LLM returned a non-JSON response."; otherwise the parsed object unchanged |
| Services.ScoreNotClamped | app/services.py:96 | any score the model returns, including one outside 0..100, is passed on as it is |
| Services.BulletItemsSpec | app/services.py:106-107 | the items number #`,` + #`;` + 1, contain no delimiter, and joined back with "," give the text with `;` replaced by "," |
| Services.BulletItemsMixedDelimiters | app/services.py:106-107 | `a,b;c` gives exactly the items a, b, c, with spaces and empty items kept |
| Services.PieceOfSplitIsInfix | app/services.py:106-107 | every character of an item comes from the input |
| Services.GenerateJd | app/services.py:102-132 | the generated text is returned unparsed, and a failed call is 500 "An error occurred while generating the job description with the LLM: …" |
| Common.TruthyOr | app/main.py:181-182 | Python's `s if s else default` (also app/services.py:125 and app/main.py:487): the string when it is non-empty, otherwise the default |
| Text.JoinSplit | app/services.py:106-107 | joining the pieces of a split on a character with that character rebuilds the text |
| Text.SplitJoin | app/services.py:106-107 | splitting a join of delimiter-free pieces gives the pieces back |
| Text.SplitCount | app/services.py:106-107 | a split on a character gives one more piece than the character's occurrences |
| Text.ReplaceIsJoinSplit | app/services.py:106 | replacing a character is splitting on it and joining with the replacement |
| Text.ReplaceCharLength | app/main.py:659 | replacing every occurrence of one character with t changes the length by \|t\|−1 per occurrence |
| Text.ReplaceCharRemoves | app/main.py:659 | after the replacement the replaced character no longer occurs |
| Text.StripSet | app/blob_service.py:23 | the result is a contiguous slice of the input whose ends are outside the stripped set, and is empty exactly when every character is in the set |
| Text.BlankIff | app/main.py:167 | `not s.strip()` holds exactly when every character is whitespace |
| Text.SplitOnceFirst | app/blob_service.py:29 | splitting at the first `=` separates a key without `=` from the whole rest |
| Text.LowerIdempotent | app/database.py:224 | lowercasing twice is lowercasing once |
| Blob.Clean | app/blob_service.py:23 | the cleaned text is a slice of the input with only whitespace and quotes cut off its ends; it neither starts nor ends with `'`; a whitespace-only string cleans to ""; a string whose ends are neither whitespace nor quotes is kept whole |
| Blob.CleanIsSlice | app/blob_service.py:23 | the three strips, whitespace then `"` then `'`, together cut only characters of those kinds off the two ends |
| Blob.CleanKeeps | app/blob_service.py:23 | none of the three strips touches a string whose first and last characters are neither whitespace nor quotes |
| Blob.ParseConnectionString | app/blob_service.py:23-30 | the loop builds the dictionary that the fold over the `;` segments defines |
| Blob.PartsKeys | app/blob_service.py:27-30 | a key is present exactly when some segment containing `=` carries it; segments without `=` are ignored |
| Blob.PartsLastWins | app/blob_service.py:30 | the last segment carrying a key sets its value |
| Blob.EntryOfSegment | app/blob_service.py:29-30 | a segment splits at its first `=` only, so a value keeps its own `=` characters; key and value are stripped |
| Blob.BlankConnectionStringHasNoParts | app/blob_service.py:23-30 | a whitespace-only connection string yields no entries |
| Blob.Lookup | app/blob_service.py:32-33 | `parts.get(key)`: the value when the key is present, None otherwise |
| Blob.SasUrl | app/blob_service.py:85 | the URL starts with "https://{account}.blob.core.windows.net/", ends with "{container}/{filename}?{sas}", and is exactly as long as the two, so nothing sits between them |
| Blob.BlobService.constructor | app/blob_service.py:8-46 | the account name and key are parsed only from a non-empty connection string once both clients exist; otherwise both are None |
| Blob.BlobService.UploadFile | app/blob_service.py:48-62 | without a client: 500 "Azure Storage not configured"; without a container client: 500 quoting the AttributeError; an SDK failure: 500 "Failed to upload to Azure: …"; success: the filename unchanged |
| Blob.BlobService.GetSasUrl | app/blob_service.py:64-90 | the result is non-empty exactly when the client, the account name and key, and the signing all succeed, and it is then the SAS URL |
| Email.EmailService.constructor | app/email_service.py:9-13 | the service keeps the credentials and uses smtp.gmail.com port 587 |
| Email.EmailService.SendBulk | app/email_service.py:27-75 | no recipients: both lists empty, no connection; a failed connection: a "Connection Error: …" entry for every recipient; otherwise the lists of the per-recipient fold, plus a connection error per recipient when closing fails |
| Email.ConnectionErrors | app/email_service.py:69-73 | one failed entry per recipient, emails or not, with the "Connection Error: " prefix |
| Email.RunPartition | app/email_service.py:43-68 | the two lists together hold exactly as many entries as there are recipients with an email |
| Email.RunStepWithEmail | app/email_service.py:44-68 | a recipient with an email appends exactly one entry for that email, "sent" to the success list or "failed" with its error to the failure list, and leaves the other list unchanged |
| Email.RecipientListedOnce | app/email_service.py:44-68 | in the final lists each recipient with an email holds exactly one entry, in input order: the next slot of one list after what the earlier recipients produced, and nothing in the other |
| Email.RunEntries | app/email_service.py:43-68 | successes are "sent" without error, failures are "failed" with one, each for a recipient's non-empty email |
| Email.RunGrows | app/email_service.py:32-68 | the lists only grow: earlier entries stay a prefix |
| Email.SkipWithoutEmail | app/email_service.py:45-46 | a recipient without an email changes neither list |
| Email.CleanSessionAccountsForEveryone | app/email_service.py:43-68 | on a clean session the two lists together hold as many entries as there are recipients with an email (which entry belongs to which recipient: `Email.RecipientListedOnce`) |
| Database.ToIntegerColumn | app/database.py:123-152 | the stored score is within 0.5 of the float, with ties away from zero |
| Database.Truncate | app/database.py:194 | `int()` of the average truncates toward zero |
| Database.Overwrite | app/database.py:198-200 | overwriting from group-by rows never adds or removes a stat key |
| Database.OverwriteMiss | app/database.py:198-200 | a key that no row names keeps its initial value |
| Database.OverwriteHit | app/database.py:198-200 | a key a row names takes that row's count |
| Database.ApplicationStatCount | app/database.py:177-205 | for "shortlisted", "rejected" and "pending", the stat is the number of applications with that status (0 when none) |
| Database.ApplicationTotals | app/database.py:190-200 | "total" is the number of applications and "avg_score" the truncated average or 0, unless an application's status is itself "total" or "avg_score" |
| Database.JobApplicationStatCount | app/database.py:565-606 | each of the five statuses counts exactly the job applications in that status, 0 when none |
| Database.JobApplicationTotal | app/database.py:565-606 | "total_applications" counts every job application: the status CHECK keeps the group-by rows off that key |
| Database.ApplicationInsert | app/database.py:123-152 | an out-of-range score is a DataError, a taken id an IntegrityError; otherwise a 'pending' row with the rounded score |
| Database.Store.constructor | app/database.py:18-107 | all tables start empty and the invariant holds |
| Database.Store.CreateApplication | app/database.py:123-152 | the insert outcome above, applied to the applications table only |
| Database.Store.UpdateApplicationStatus | app/database.py:154-164 | true exactly when the id exists, and then only that row's status changes |
| Database.Store.GetApplicationStats | app/database.py:177-205 | the five keys, with the initial values overwritten by the group-by rows |
| Database.Store.GetUserByEmail | app/database.py:244-255 | the lookup lowercases the email |
| Database.Store.CreateUser | app/database.py:207-242 | None exactly when the lowercased email is taken, the role is not hr or candidate, or the id is taken; otherwise the profile with the lowercased email, and the password then verifies |
| Database.Store.GetUserByToken | app/database.py:295-312 | the user the token's email names, None for an unknown token |
| Database.Store.CreateToken | app/database.py:277-293 | records the lowercased email under the token, so the token then resolves to that user; an error exactly when no such user exists or the token is taken |
| Database.Store.DeleteToken | app/database.py:314-327 | true exactly when the token existed; afterwards it resolves to nobody |
| Database.Store.CreateJobPosting | app/database.py:329-362 | a new posting with the given status (default 'active'); an error exactly when the id is taken or the status fails the CHECK |
| Database.Store.GetJobPostingById | app/database.py:379-390 | the posting with that id, or None |
| Database.Store.GetAllJobPostings | app/database.py:364-377 | every posting, or those with the given status when one is given |
| Database.Store.UpdateJobPostingStatus | app/database.py:392-402 | false for an unknown id, an error for a status outside the CHECK, otherwise true and only that status changes |
| Database.Store.DeleteJobPosting | app/database.py:404-416 | false for an unknown id, an error while job applications reference it, otherwise true and the posting is gone |
| Database.Store.CreateJobApplication | app/database.py:418-474 | a 'pending' row; an error exactly when the id is taken or the job or candidate does not exist; afterwards the duplicate check holds |
| Database.Store.Joined | app/database.py:476-500 | the LEFT JOIN adds the posting's title and company when the posting exists |
| Database.Store.GetAllJobApplications | app/database.py:476-500 | every job application joined with its posting, filtered by job id when one is given |
| Database.Store.GetJobApplicationsByCandidate | app/database.py:502-518 | the candidate's job applications, joined |
| Database.Store.GetJobApplicationById | app/database.py:520-536 | the joined row with that id, or None |
| Database.Store.UpdateJobApplicationStatus | app/database.py:538-548 | false for an unknown id, an error outside the CHECK, otherwise true and only that status changes |
| Database.Store.GetJobApplicationStats | app/database.py:565-606 | the status counts overwritten by the group-by rows, plus the number of postings and of active postings |
| Api.SplitExt | app/main.py:173 | root + extension is the path, and a non-empty extension starts with its only '.' and has no '/' |
| Api.SplitExtOfName | app/main.py:173 | a name with a non-dot character before its last '.' splits at that '.' |
| Api.DotFileHasNoExtension | app/main.py:473 | ".pdf" has no extension |
| Api.ScoreUpload | app/main.py:164-169 | an upload with an unsupported suffix fails with that suffix's error |
| Api.BlankTextRefusedBeforeScoring | app/main.py:167-168 | blank text is refused with 400 "Could not extract any text from the resume." whatever the language model would answer |
| Api.ScoreResume | app/main.py:150-193 | a failure before the insert leaves the store alone; otherwise one row with the score (0 if absent) and job role "Applicant"; a reply lacking score or explanation fails with 500 after the row is stored |
| Api.ScoreFile | app/main.py:210-254 | a file is scored, with the parsed reply, exactly when its text was read, non-blank and scored; blank text degrades to "Could not extract text from this file."; any other error degrades to "Error processing file: " and the error's text |
| Api.ScoreResumesBatch | app/main.py:195-256 | the entries and table are the fold over the first five files |
| Api.BatchEntries | app/main.py:207-254 | one entry per processed file, in input order, each naming its own file |
| Api.BatchDegradedEntry | app/main.py:212-254 | a file whose text was blank or whose processing raised gets score 0 and its explanation, and later files are still processed |
| Api.EntryFor | app/main.py:212-254 | an entry carries its file's name; a file that failed before the insert gets score 0 and its explanation; a scored file gets its score (0 when absent) and explanation ("" when absent) when the insert succeeds, and score 0 with "Error processing file: " and the database error otherwise |
| Api.TableAfter | app/main.py:234-241 | one file adds at most one row, under the file's id, and does so exactly when it was scored and the insert succeeds; the stored rows are unchanged, and a new row has job role "Applicant" and status 'pending' |
| Api.BatchKeepsRows | app/main.py:232-241 | rows already stored are kept unchanged; every new row has job role "Applicant" and status 'pending' |
| Api.BatchIgnoresExtraFiles | app/main.py:207 | a batch over more than five files is the batch over the first five |
| Api.BlankFileNotScored | app/main.py:212-219 | a blank file gets "Could not extract text from this file." and the model is not consulted |
| Api.UnsupportedFileDegrades | app/main.py:249-254 | an unsupported file gets "Error processing file: 400: …" instead of stopping the batch |
| Api.UpdateCandidateStatus | app/main.py:289-302 | a status outside {pending, shortlisted, rejected} is 400 before the store is touched; a missing row is 404 |
| Api.UpdateJobStatus | app/main.py:403-416 | a status outside {active, closed, draft} is 400; a missing posting is 404; otherwise only that status changes |
| Api.UpdateJobApplicationStatus | app/main.py:571-584 | a status outside the five is 400; a missing row is 404; otherwise only that status changes |
| Api.ResumeUrl | app/main.py:507-508 | a URL exists exactly when the path is non-empty, and is the uploads base followed by the path |
| Api.ApplyGuard | app/main.py:453-475 | the first failing check decides: 401 token, 404 job, 400 closed job, 400 duplicate, 400 extension outside {.pdf, .docx, .doc} compared in lower case |
| Api.UpperCaseExtensionAccepted | app/main.py:473-474 | "CV.PDF" passes the applying check though the scoring endpoints refuse it |
| Api.ApplyToJob | app/main.py:432-514 | a failed check is returned and leaves the table alone; once the checks pass the application is created exactly when its id is fresh (a taken id is 500), as a 'pending' row under the given or profile name, after which every new attempt is "already applied"; any error leaves the table alone |
| Api.FormatBody | app/main.py:656-664 | a body with both '<' and '>' is unchanged; otherwise it is wrapped in the styled div around the body with each newline turned into `<br>` |
| Api.FormatBodyIdempotent | app/main.py:656-664 | formatting an already formatted body changes nothing |
| Api.FormattedTextHasNoBodyNewline | app/main.py:659 | the wrapped text keeps none of the body's newlines |
| Api.Credential | app/main.py:638-639 | the request's credential when non-empty, else the setting, and 500 when the setting is not declared |
| Api.RecipientsOf | app/main.py:648-651 | one recipient per address, in order, named "Candidate" |
| Api.BuildRecipients | app/main.py:648-651 | the loop builds that list |
| Api.FormatResults | app/main.py:675-679 | every sent entry, then every failed entry, each group in its own order |
| Api.SendBulkEmail | app/main.py:631-680 | missing credentials give success false and no results; otherwise success with the formatted results of sending the formatted body to every address |
| Api.NoAddressesNoResults | app/main.py:648-680 | no addresses means nothing is sent and nothing is listed |

## Left out

- Remote services: the OCR, chat-model, SMTP and blob SDK calls, JSON parsing, python-docx parsing and `str.format` are function parameters. The model states what the code does with their outcomes, not what they compute.
- File writes to `uploads/` (app/main.py:176-178, 480-482) are not modelled. A failed write would raise inside the handlers.
- Timestamps, `ORDER BY created_at` and list order of query results: query results are sets.
- Hashing, `secrets` tokens and ids, and `uuid4` are parameters. The caller chooses them, and a collision is the constraint error the code would meet.
- `int(AVG(score))` is computed by the database: the average is a parameter, and only the truncation is modelled.
- `Text.Lower` lowercases ASCII letters only; Python's `str.lower` also folds other scripts.
- `Utils.ExtractTextFromDocx`: when a paragraph text itself contains a newline, the model states the joined text but not how it splits back or how many newlines it holds.
- `Services.GetLlmScore` and `ScoreData`: the parsed reply is modelled as an object with an optional numeric score and an optional explanation. Other JSON shapes are not represented: a list or a number (on which `.get` raises), `"score": null` (stored as NULL), and a string score (which pydantic converts).
- `Services.Remote`: the chat model is a function of the prompt, so the model treats it as deterministic, while the source samples it at temperature 0.7. No stated property depends on two calls agreeing.
- Registration, login, logout, `/auth/me/`, job creation handlers, listings, the dashboard and stats handlers and the realtime session endpoint only pass store results through; app/chat_service.py is not part of this model.
- `get_all_applications` and `get_all_candidates` in app/database.py are plain SELECTs and are not modelled.
- `Api.ScoreResumesBatch` keeps each file's name with its entry. The `ScoreResponse` model (app/models.py:4-7) declares only score and explanation, so the service as written would drop the name. The batch response model it names is not defined in app/models.py.
- app/main.py:8-15 imports response models that app/models.py does not define. app/config.py declares no `EMAIL_SENDER`, `EMAIL_PASSWORD`, `AZURE_STORAGE_CONNECTION_STRING`, `AZURE_CONTAINER_NAME` or `DATABASE_URL`. The model takes the settings as parameters, with `None` for an undeclared email setting, whose access raises.
- `Api.SendBulkEmail`: the `time.sleep` rate limiting between sends (app/email_service.py:65) has no observable effect in the model.
- Scores are reals and the batch entry score is 0 for a failure; floating-point rounding is not modelled.
