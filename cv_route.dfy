/**
 * The POST handler of the CV upload endpoint: it validates the multipart
 * form, cleans the uploaded text and formats its sections (module CvText),
 * and answers with a JSON body and an HTTP status.
 */
module ProcessCv {
  import opened Base
  import opened CvText

  /** A value of the multipart form: a plain text field, or an uploaded file with its MIME type and decoded text. */
  datatype FormValue = TextField(value: string) | FileField(mimeType: string, content: string)

  /** The request as the handler sees it: a body that is not a form, or a form with or without a `file` entry. */
  datatype Request = Unparsable | Form(file: Option<FormValue>)

  datatype Body = ErrorBody(error: string) | TextBody(text: string)

  datatype Response = Response(status: nat, body: Body)

  const NoFileMessage: string := "No file provided"
  const NotTextMessage: string := "Only text files (.txt) are supported"
  const FailureMessage: string := "Failed to process CV file"
  const TextPlain: string := "text/plain"

  /** Every exception inside the handler becomes this answer. */
  function Failure(): Response {
    Response(500, ErrorBody(FailureMessage))
  }

  /** The handler, with each thrown exception replaced by the catch-all answer it leads to. */
  function Post(req: Request): Response {
    match req
    case Unparsable => Failure()
    case Form(None) => Response(400, ErrorBody(NoFileMessage))
    case Form(Some(TextField(v))) =>
      // a non-empty text field is truthy, and reading `.type.includes` on it throws
      if v == "" then Response(400, ErrorBody(NoFileMessage)) else Failure()
    case Form(Some(FileField(mime, content))) =>
      if !Contains(mime, TextPlain) then Response(400, ErrorBody(NotTextMessage))
      else match ProcessText(content)
        case None => Failure()
        case Some(text) => Response(200, TextBody(text))
  }

  /** The request carries an uploaded file whose type mentions text/plain. */
  predicate IsTextUpload(req: Request) {
    req.Form? && req.file.Some? && req.file.value.FileField? && Contains(req.file.value.mimeType, TextPlain)
  }

  /** Status 400 with "No file provided" exactly when the form has no truthy `file` entry. */
  lemma PostMissingFile(req: Request)
    ensures Post(req) == Response(400, ErrorBody(NoFileMessage)) <==>
      req.Form? && (req.file.None? || req.file == Some(TextField("")))
  {
  }

  /** Status 400 with the text-only message exactly when the file's type does not contain text/plain. */
  lemma PostWrongType(req: Request)
    ensures Post(req) == Response(400, ErrorBody(NotTextMessage)) <==>
      req.Form? && req.file.Some? && req.file.value.FileField? && !Contains(req.file.value.mimeType, TextPlain)
  {
  }

  /** The answer to a text upload is decided by what cleaning leaves of its content. */
  lemma PostTextUpload(mime: string, content: string)
    requires Contains(mime, TextPlain)
    ensures Visible(content) == [] ==> Post(Form(Some(FileField(mime, content)))) == Failure()
    ensures Visible(content) != [] ==>
      var text := FormatText(Sections(Clean(content)));
      Post(Form(Some(FileField(mime, content)))) == Response(200, TextBody(text)) && text != []
  {
    PostOfTextUpload(mime, content);
    ProcessTextSpec(content);
  }

  lemma PostOfTextUpload(mime: string, content: string)
    requires Contains(mime, TextPlain)
    ensures Post(Form(Some(FileField(mime, content)))) ==
      if ProcessText(content).None? then Failure() else Response(200, TextBody(ProcessText(content).value))
  {
  }

  /**
   * Status 200 exactly for a text upload with at least one character the
   * cleaning keeps, and then the body is the formatted sections of the
   * cleaned text, which is not empty.
   */
  lemma PostAccepts(req: Request)
    ensures Post(req).status == 200 <==> IsTextUpload(req) && Visible(req.file.value.content) != []
    ensures Post(req).status == 200 ==>
      var cleaned := Clean(req.file.value.content);
      && Post(req).body == TextBody(FormatText(Sections(cleaned)))
      && Post(req).body.text != []
  {
    match req
    case Form(Some(FileField(mime, content))) =>
      if Contains(mime, TextPlain) {
        PostTextUpload(mime, content);
      }
    case _ =>
  }

  /**
   * Every other answer is status 500 with "Failed to process CV file"; in
   * particular a text upload whose cleaned text is empty gets it.
   */
  lemma PostFails(req: Request)
    ensures Post(req).status in {200, 400, 500}
    ensures Post(req).status == 500 <==> Post(req) == Failure()
    ensures IsTextUpload(req) && Visible(req.file.value.content) == [] ==> Post(req) == Failure()
  {
    if IsTextUpload(req) {
      PostTextUpload(req.file.value.mimeType, req.file.value.content);
    }
  }
}
