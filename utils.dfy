/** app/utils.py: the upload's type from its filename suffix, the base 64
    text of a PDF, and the text of a DOCX document. The DOCX parser
    (python-docx) is an opaque function returning the paragraph texts or an
    error message. */
module Utils {
  import opened Common
  import opened Text
  import Base64

  type byte = Base64.byte

  /** An uploaded file: its client-side name and its bytes. */
  datatype Upload = Upload(filename: string, content: seq<byte>)

  /** What the DOCX parser makes of a byte string. */
  datatype DocxOutcome = Paragraphs(texts: seq<string>) | DocxFailed(message: string)

  const UnsupportedFormat: HttpError :=
    HttpError(400, "Unsupported file format. Please upload a .pdf or .docx file.")

  /** `encode_pdf_from_bytes`: standard base 64 text of the bytes. */
  function EncodePdfFromBytes(pdf: seq<byte>): (r: string)
    ensures |r| == 4 * ((|pdf| + 2) / 3)
    ensures Base64.IsCanonicalShape(r)
    ensures Base64.Decode(r) == Some(pdf)
  {
    Base64.EncodeShape(pdf);
    Base64.DecodeEncode(pdf);
    Base64.Encode(pdf)
  }

  /** `get_text_from_resume`: the bytes read, with "pdf" or "docx" chosen by a
      case-sensitive suffix test; any other name is refused with 400. */
  function GetTextFromResume(u: Upload): (r: Result<(seq<byte>, string), HttpError>)
    ensures EndsWith(u.filename, ".pdf") ==> r == Ok((u.content, "pdf"))
    ensures !EndsWith(u.filename, ".pdf") && EndsWith(u.filename, ".docx") ==> r == Ok((u.content, "docx"))
    ensures r.Err? <==> !EndsWith(u.filename, ".pdf") && !EndsWith(u.filename, ".docx")
    ensures r.Err? ==> r.error == UnsupportedFormat
  {
    if EndsWith(u.filename, ".pdf") then Ok((u.content, "pdf"))
    else if EndsWith(u.filename, ".docx") then Ok((u.content, "docx"))
    else Err(UnsupportedFormat)
  }

  /** `extract_text_from_docx`: the paragraph texts in document order joined
      by newlines, or 500 with the parser's message. */
  function ExtractTextFromDocx(content: seq<byte>, parse: seq<byte> -> DocxOutcome): (r: Result<string, HttpError>)
    ensures parse(content).DocxFailed? <==> r.Err?
    ensures r.Err? ==> r.error == HttpError(500, "Error processing DOCX file: " + parse(content).message)
    ensures r.Ok? ==> r.value == Join("\n", parse(content).texts)
    ensures parse(content) == Paragraphs([]) ==> r == Ok("")
    ensures r.Ok? && |parse(content).texts| >= 1 &&
            (forall i :: 0 <= i < |parse(content).texts| ==> '\n' !in parse(content).texts[i])
            ==> Split(r.value, '\n') == parse(content).texts
                && Count(r.value, '\n') == |parse(content).texts| - 1
  {
    match parse(content)
    case DocxFailed(m) => Err(HttpError(500, "Error processing DOCX file: " + m))
    case Paragraphs(ps) =>
      var text := Join("\n", ps);
      if |ps| >= 1 && forall i :: 0 <= i < |ps| ==> '\n' !in ps[i] then
        SplitJoin(ps, '\n');
        SplitCount(text, '\n');
        Ok(text)
      else
        Ok(text)
  }

  /** "CV.PDF" is refused: the suffix test is case-sensitive. */
  lemma UpperCaseSuffixRefused(content: seq<byte>)
    ensures GetTextFromResume(Upload("CV.PDF", content)) == Err(UnsupportedFormat)
  {
    assert "CV.PDF"[2..] != ".pdf";
    assert "CV.PDF"[1..] != ".docx";
  }
}
