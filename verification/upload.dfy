/**
 `/upload-pdf`: the file-part and file-name checks in front of `parse_pdf`.
 This route has no `authenticate_token` in front of it. The uploaded PDF is
 given by what saving and reading it come to: an exception, or the text its
 pages yield. Saving it and writing the CSV copy are recorded as effects, not
 performed.
 */
module Upload {
  import opened Values
  import opened Statements
  import opened Http

  /**
   What saving and reading the uploaded file comes to: `file.save` raises, or
   `parse_pdf` raises on the saved file (it is no readable PDF, or a page has
   no text and `extract_text` gives `None`), or every page yields its text.
   */
  datatype Contents = SaveRaises | ParseRaises | Extracted(pages: seq<string>)

  /** The `file` part of a multipart request: its client-supplied name (possibly absent) and what its contents come to. */
  datatype UploadedFile = UploadedFile(filename: Option<string>, contents: Contents)

  datatype UploadEffect =
    | SavedUpload(path: string)
    | SavedCsv(statements: seq<Statement>)

  const UploadDir := "uploads"

  /** `str.endswith`, case-sensitive. */
  predicate EndsWith(s: string, suffix: string) {
    |suffix| <= |s| && s[|s| - |suffix|..] == suffix
  }

  /** `os.path.join(UploadDir, name)` on POSIX: an absolute name replaces the directory. */
  function UploadPath(name: string): (path: string)
    ensures |name| > 0 && name[0] == '/' ==> path == name
    ensures !(|name| > 0 && name[0] == '/') ==> path == UploadDir + "/" + name
  {
    if |name| > 0 && name[0] == '/' then name else UploadDir + "/" + name
  }

  /** A name passes the format check exactly when it is some stem followed by ".pdf". */
  lemma EndsWithPdfMeansStem(name: string)
    ensures EndsWith(name, ".pdf") <==> exists stem :: name == stem + ".pdf"
  {
    if EndsWith(name, ".pdf") {
      var stem := name[..|name| - 4];
      assert name == stem + ".pdf";
    }
    if exists stem :: name == stem + ".pdf" {
      var stem :| name == stem + ".pdf";
      assert name[|name| - 4..] == ".pdf";
    }
  }

  /** The file part has a name ending in ".pdf", so the route goes on to save and parse it. */
  predicate AcceptedName(file: Option<UploadedFile>) {
    file.Some? && file.value.filename.Some? && EndsWith(file.value.filename.value, ".pdf")
  }

  /**
   `upload_pdf`: no file part is 400 "No file part", an empty file name is 400
   "No selected file", a name not ending in ".pdf" (or no name at all) is 400
   "Invalid file format". A ".pdf" name is saved and parsed; the records are
   answered with 200, unless saving or parsing raises, which nothing in the
   route catches, so Flask answers 500.
   */
  function UploadPdf(file: Option<UploadedFile>): (h: Handled<UploadEffect>)
    ensures file.None? ==> h == Reject(400, "No file part")
    ensures file.Some? && file.value.filename == Some("") ==> h == Reject(400, "No selected file")
    ensures file.Some? && file.value.filename != Some("") && !AcceptedName(file) ==> h == Reject(400, "Invalid file format")
    ensures h.response.status == 200 <==> AcceptedName(file) && file.value.contents.Extracted?
    ensures h.response.status == 500 <==> AcceptedName(file) && !file.value.contents.Extracted?
    ensures h.response.status == 500 ==> h.response == UncaughtException
    ensures h.response.status != 200 && h.response.status != 500 ==> h.response.status == 400 && h.effects == []
    ensures AcceptedName(file) && file.value.contents.SaveRaises? ==> h.effects == []
    ensures AcceptedName(file) && file.value.contents.ParseRaises? ==>
      h.effects == [SavedUpload(UploadPath(file.value.filename.value))]
    ensures h.response.status == 200 ==>
      var name := file.value.filename.value;
      var records := ParsePages(file.value.contents.pages);
      && h.response.body == Processed("File processed successfully", records)
      && h.effects == [SavedUpload(UploadPath(name)), SavedCsv(records)]
  {
    match file
    case None => Reject(400, "No file part")
    case Some(f) =>
      if f.filename == Some("") then Reject(400, "No selected file")
      else if f.filename.Some? && EndsWith(f.filename.value, ".pdf") then
        var path := UploadPath(f.filename.value);
        (match f.contents
         case SaveRaises => Handled(UncaughtException, [])
         case ParseRaises => Handled(UncaughtException, [SavedUpload(path)])
         case Extracted(pages) =>
           var records := ParsePages(pages);
           Handled(Response(200, Processed("File processed successfully", records)),
                   [SavedUpload(path), SavedCsv(records)]))
      else Reject(400, "Invalid file format")
  }

  /** The suffix test is case-sensitive: "statement.PDF" is refused and nothing is parsed. */
  lemma UpperCaseSuffixRefused(contents: Contents)
    ensures UploadPdf(Some(UploadedFile(Some("statement.PDF"), contents))) == Reject(400, "Invalid file format")
  {
    assert "statement.PDF"[9..] != ".pdf" by { assert "statement.PDF"[10] == 'P'; }
  }

  /** The client's file name is joined to the upload directory unchecked: an absolute name is saved where it points. */
  lemma AbsoluteNameLeavesUploadDir(name: string, contents: Contents)
    requires |name| > 0 && name[0] == '/' && EndsWith(name, ".pdf") && !contents.SaveRaises?
    ensures UploadPdf(Some(UploadedFile(Some(name), contents))).effects[0] == SavedUpload(name)
  {
  }
}
