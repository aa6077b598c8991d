/** app/services.py: resume text extraction (OCR for PDF, the DOCX parser for
    DOCX), scoring by the language model and job-description generation.
    The OCR service, the language model and JSON parsing are opaque
    functions carried in `Remote`; each returns a value or an error message. */
module Services {
  import opened Common
  import opened Text
  import opened Utils
  import Base64

  /** One page of the OCR response; `markdown` may be absent. */
  datatype OcrPage = OcrPage(markdown: Option<string>)

  /** The OCR call's outcome: the response (whose `pages` may be absent) or the error raised. */
  datatype OcrOutcome = OcrResponse(pages: Option<seq<OcrPage>>) | OcrFailed(message: string)

  /** What is sent to the OCR service: a model name and a document URL. */
  datatype OcrRequest = OcrRequest(model: string, documentUrl: string)

  /** The prompts the language model receives, by the values they embed verbatim. */
  datatype Prompt =
    | ScorePrompt(jobDescription: string, resumeText: string)
    | JdPrompt(jobTitle: string, companyName: string, location: string, experienceLevel: string,
               responsibilities: string, skills: string, extraDetails: string)

  datatype LlmOutcome = Completion(content: string) | LlmFailed(message: string)

  /** The parsed JSON object, reduced to the two keys its readers use. */
  datatype ScoreData = ScoreData(score: Option<real>, explanation: Option<string>)

  datatype JsonOutcome = Parsed(data: ScoreData) | NotJson

  /** The remote collaborators and foreign parsers the services call. */
  datatype Remote = Remote(
    ocr: OcrRequest -> OcrOutcome,
    docx: seq<byte> -> DocxOutcome,
    llm: Prompt -> LlmOutcome,
    json: string -> JsonOutcome)

  /** `JobRoleInput`. */
  datatype JobRoleInput = JobRoleInput(
    jobTitle: string, companyName: string, keyResponsibilities: string,
    requiredSkills: string, experienceLevel: string, location: string,
    extraDetails: Option<string>)

  const OcrModel := "mistral-ocr-latest"
  const PdfUrlPrefix := "data:application/pdf;base64,"

  /** The document URL the OCR service receives: a data URL holding the base 64 bytes. */
  function PdfDataUrl(pdf: seq<byte>): (r: string)
    ensures StartsWith(r, PdfUrlPrefix)
    ensures Base64.Decode(r[|PdfUrlPrefix|..]) == Some(pdf)
  {
    var r := PdfUrlPrefix + EncodePdfFromBytes(pdf);
    assert r[|PdfUrlPrefix|..] == EncodePdfFromBytes(pdf);
    r
  }

  /** `page.get('markdown', '')`. */
  function PageText(p: OcrPage): string {
    p.markdown.GetOr("")
  }

  function PageTexts(pages: seq<OcrPage>): (r: seq<string>)
    ensures |r| == |pages|
    ensures forall i :: 0 <= i < |pages| ==> r[i] == PageText(pages[i])
  {
    seq(|pages|, i requires 0 <= i < |pages| => PageText(pages[i]))
  }

  /** The OCR text: page texts in page order, separated by single spaces. */
  function OcrText(pages: Option<seq<OcrPage>>): string {
    Join(" ", PageTexts(pages.GetOr([])))
  }

  /** `extract_resume_text`: dispatch on the declared type. */
  function ExtractResumeText(content: seq<byte>, fileType: string, remote: Remote): (r: Result<string, HttpError>)
    ensures fileType != "pdf" && fileType != "docx" ==> r == Ok("")
    ensures fileType == "docx" ==> r == ExtractTextFromDocx(content, remote.docx)
    ensures fileType == "pdf" ==>
              var o := remote.ocr(OcrRequest(OcrModel, PdfDataUrl(content)));
              && (o.OcrFailed? <==> r.Err?)
              && (o.OcrFailed? ==> r.error == HttpError(500, "OCR processing failed: " + o.message))
              && (o.OcrResponse? ==> r == Ok(OcrText(o.pages)))
  {
    if fileType == "pdf" then
      match remote.ocr(OcrRequest(OcrModel, PdfDataUrl(content)))
      case OcrFailed(m) => Err(HttpError(500, "OCR processing failed: " + m))
      case OcrResponse(pages) => Ok(OcrText(pages))
    else if fileType == "docx" then
      ExtractTextFromDocx(content, remote.docx)
    else
      Ok("")
  }

  /** The OCR text lays the pages out in order: page `i`'s markdown (or "" when
      it has none) at `Offset(" ", ..., i)`, one space after every page but the last. */
  lemma OcrTextLayout(pages: seq<OcrPage>, i: nat)
    requires i < |pages|
    ensures var ts := PageTexts(pages);
            var t := OcrText(Some(pages));
            && Offset(" ", ts, i) + |PageText(pages[i])| <= |t|
            && t[Offset(" ", ts, i)..Offset(" ", ts, i) + |PageText(pages[i])|] == PageText(pages[i])
            && (i + 1 < |pages| ==> Offset(" ", ts, i + 1) <= |t|)
            && (i + 1 < |pages| ==> t[Offset(" ", ts, i) + |PageText(pages[i])|..Offset(" ", ts, i + 1)] == " ")
  {
    JoinPieceAt(" ", PageTexts(pages), i);
    if i + 1 < |pages| {
      JoinSeparatorAt(" ", PageTexts(pages), i);
    }
  }

  /** With k pages the OCR text holds k - 1 separating spaces more than the pages' own text. */
  lemma OcrTextLength(pages: seq<OcrPage>)
    requires |pages| >= 1
    ensures |OcrText(Some(pages))| == Offset(" ", PageTexts(pages), |pages| - 1) + |PageText(pages[|pages| - 1])|
  {
    JoinLength(" ", PageTexts(pages));
  }

  /** A response without pages gives the empty text, which is returned, not refused. */
  lemma NoPagesIsEmptyText(content: seq<byte>, remote: Remote)
    requires remote.ocr(OcrRequest(OcrModel, PdfDataUrl(content))) == OcrResponse(None)
    ensures ExtractResumeText(content, "pdf", remote) == Ok("")
  {
  }

  const NonJsonResponse := HttpError(500, "LLM returned a non-JSON response.")

  /** `get_llm_score`: the parsed reply as it is, with no clamping of the score. */
  function GetLlmScore(resumeText: string, jobDescription: string, remote: Remote): (r: Result<ScoreData, HttpError>)
    ensures var o := remote.llm(ScorePrompt(jobDescription, resumeText));
            && (o.LlmFailed? ==> r == Err(HttpError(500, "An error occurred with the LLM: " + o.message)))
            && (o.Completion? && remote.json(o.content).NotJson? ==> r == Err(NonJsonResponse))
            && (o.Completion? && remote.json(o.content).Parsed? ==> r == Ok(remote.json(o.content).data))
  {
    match remote.llm(ScorePrompt(jobDescription, resumeText))
    case LlmFailed(m) => Err(HttpError(500, "An error occurred with the LLM: " + m))
    case Completion(c) =>
      match remote.json(c)
      case NotJson => Err(NonJsonResponse)
      case Parsed(d) => Ok(d)
  }

  /** Any score the model reports is passed on, however far outside 0..100. */
  lemma ScoreNotClamped(resumeText: string, jobDescription: string, remote: Remote, s: real)
    requires remote.llm(ScorePrompt(jobDescription, resumeText)) == Completion("{}")
    requires remote.json("{}") == Parsed(ScoreData(Some(s), Some("")))
    ensures GetLlmScore(resumeText, jobDescription, remote).Ok?
    ensures GetLlmScore(resumeText, jobDescription, remote).value.score == Some(s)
  {
  }

  // ------------------------------------------------ job description generator

  /** The responsibility or skill items: every ';' becomes ',', then split on ','. */
  function BulletItems(s: string): seq<string> {
    Split(ReplaceChar(s, ';', ","), ',')
  }

  /** The items as the prompt lists them, joined by a newline and a dash. */
  function BulletList(s: string): string {
    Join("\n- ", BulletItems(s))
  }

  /** One item per delimiter plus one; no item holds a delimiter; joining the
      items with ',' gives back the input with each ';' read as ','. */
  lemma {:induction false} BulletItemsSpec(s: string)
    ensures |BulletItems(s)| == Count(s, ',') + Count(s, ';') + 1
    ensures forall i :: 0 <= i < |BulletItems(s)| ==> ',' !in BulletItems(s)[i] && ';' !in BulletItems(s)[i]
    ensures Join(",", BulletItems(s)) == ReplaceChar(s, ';', ",")
  {
    var t := ReplaceChar(s, ';', ",");
    ReplaceCharCounts(s, ';', ',');
    SplitCount(t, ',');
    SplitPiecesFree(t, ',');
    JoinSplit(t, ',');
    var items := Split(t, ',');
    forall i | 0 <= i < |items| ensures ';' !in items[i] {
      PieceOfSplitIsInfix(t, ',', i);
    }
  }

  lemma {:induction false} PieceOfSplitIsInfix(t: string, d: char, i: nat)
    requires i < |Split(t, d)|
    ensures forall c :: c in Split(t, d)[i] ==> c in t
  {
    if t != [] {
      var rest := Split(t[1..], d);
      if t[0] == d {
        if i > 0 { PieceOfSplitIsInfix(t[1..], d, i - 1); }
      } else {
        if i == 0 {
          PieceOfSplitIsInfix(t[1..], d, 0);
        } else {
          PieceOfSplitIsInfix(t[1..], d, i);
        }
      }
    }
  }

  /** The naive split keeps the spaces around each item: "Write code, Review
      PRs; Mentor juniors" gives "Write code", " Review PRs", " Mentor juniors". */
  lemma BulletItemsMixedDelimiters(a: string, b: string, c: string)
    requires ',' !in a && ';' !in a && ',' !in b && ';' !in b && ',' !in c && ';' !in c
    ensures BulletItems(a + "," + b + ";" + c) == [a, b, c]
  {
    var ab := a + [','] + b;
    var tail := b + [','] + c;
    assert a + "," + b + ";" + c == ab + [';'] + c;
    ReplaceCharAt(ab, c, ';', ",");
    ReplaceCharAbsent(ab, ';', ",");
    ReplaceCharAbsent(c, ';', ",");
    assert ab + "," + c == a + [','] + tail;
    SplitNoSeparator(c, ',');
    SplitAfterPiece(b, c, ',');
    SplitAfterPiece(a, tail, ',');
  }

  /** The prompt `generate_jd_from_llm` builds from the request. */
  function JdPromptOf(d: JobRoleInput): Prompt {
    JdPrompt(d.jobTitle, d.companyName, d.location, d.experienceLevel,
             BulletList(d.keyResponsibilities), BulletList(d.requiredSkills), TruthyOr(d.extraDetails, "N/A"))
  }

  /** `generate_jd_from_llm`: the completion text, unparsed, or 500 with the error. */
  function GenerateJd(d: JobRoleInput, remote: Remote): (r: Result<string, HttpError>)
    ensures var o := remote.llm(JdPromptOf(d));
            && (o.Completion? ==> r == Ok(o.content))
            && (o.LlmFailed? ==> r == Err(HttpError(500,
                  "An error occurred while generating the job description with the LLM: " + o.message)))
  {
    match remote.llm(JdPromptOf(d))
    case Completion(c) => Ok(c)
    case LlmFailed(m) => Err(HttpError(500, "An error occurred while generating the job description with the LLM: " + m))
  }
}
