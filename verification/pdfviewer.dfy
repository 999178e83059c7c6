/**
 The PDF viewer: shows a preview text chosen from the document title by a
 prioritised chain of case-insensitive keyword tests, and an options modal
 with share, download and delete.
 */
module PdfViewer {
  import opened Wrappers
  import opened Text
  import opened Ui

  /** The route parameters the screen reads; `title` is required (the preview lower-cases it). */
  datatype PdfScreen = PdfScreen(
    documentId: string,
    title: string,
    docType: string,
    size: string,
    showOptionsModal: bool)

  /**
   The screen opened with route parameters. Without `title` the preview's
   `title.toLowerCase()` throws, so no screen is rendered; any other absent
   parameter prints as `undefined`.
   */
  function Open(params: map<string, string>): (r: Option<PdfScreen>)
    ensures r.Some? <==> "title" in params
    ensures r.Some? ==> r.value.title == params["title"] && !r.value.showOptionsModal
    ensures r.Some? && "documentId" in params ==> r.value.documentId == params["documentId"]
    ensures r.Some? && "type" in params ==> r.value.docType == params["type"]
    ensures r.Some? && "size" in params ==> r.value.size == params["size"]
  {
    if "title" in params then
      Some(PdfScreen(
        ParamOrUndefined(params, "documentId"), params["title"],
        ParamOrUndefined(params, "type"), ParamOrUndefined(params, "size"), false))
    else None
  }

  /** The five preview texts. */
  datatype Preview = Transcript | Certificate | Passport | License | Generic

  /** The keyword tests in priority order, and the preview each one selects. */
  const Keywords: seq<string> := ["transcript", "certificate", "passport", "license"]
  const KeywordPreviews: seq<Preview> := [Transcript, Certificate, Passport, License]

  /** `title.toLowerCase().includes(keyword)` */
  predicate Mentions(title: string, keyword: string)
    ensures Mentions(title, keyword) ==> exists i :: OccursAt(Lower(title), keyword, i)
    ensures (exists i :: OccursAt(Lower(title), keyword, i)) ==> Mentions(title, keyword)
  {
    Contains(Lower(title), keyword)
  }

  /**
   The branch `getPDFContent` takes: each preview is chosen exactly when its
   keyword occurs in the lower-cased title and no earlier keyword does.
   */
  function Classify(title: string): (r: Preview)
    ensures r == Transcript <==> Mentions(title, "transcript")
    ensures r == Certificate <==> !Mentions(title, "transcript") && Mentions(title, "certificate")
    ensures r == Passport <==>
      !Mentions(title, "transcript") && !Mentions(title, "certificate") && Mentions(title, "passport")
    ensures r == License <==>
      !Mentions(title, "transcript") && !Mentions(title, "certificate") && !Mentions(title, "passport")
      && Mentions(title, "license")
    ensures r == Generic <==>
      !Mentions(title, "transcript") && !Mentions(title, "certificate") && !Mentions(title, "passport")
      && !Mentions(title, "license")
  {
    var t := Lower(title);
    if Contains(t, "transcript") then Transcript
    else if Contains(t, "certificate") then Certificate
    else if Contains(t, "passport") then Passport
    else if Contains(t, "license") then License
    else Generic
  }

  /** Reference definition: the position of the first keyword of `keywords` the title mentions, or `|keywords|`. */
  function FirstMention(title: string, keywords: seq<string>): (k: nat)
    ensures k <= |keywords|
    ensures forall j :: 0 <= j < k ==> !Mentions(title, keywords[j])
    ensures k < |keywords| ==> Mentions(title, keywords[k])
  {
    if keywords == [] then 0
    else if Mentions(title, keywords[0]) then 0
    else 1 + FirstMention(title, keywords[1..])
  }

  /** The if/else chain is the first-match rule over the keyword table. */
  lemma ClassifyIsFirstMention(title: string)
    ensures var k := FirstMention(title, Keywords);
      Classify(title) == if k < |KeywordPreviews| then KeywordPreviews[k] else Generic
  {
    var k := FirstMention(title, Keywords);
    assert Keywords[0] == "transcript" && Keywords[1] == "certificate";
    assert Keywords[2] == "passport" && Keywords[3] == "license";
    if k >= 1 { assert !Mentions(title, Keywords[0]); }
    if k >= 2 { assert !Mentions(title, Keywords[1]); }
    if k >= 3 { assert !Mentions(title, Keywords[2]); }
    if k >= 4 { assert !Mentions(title, Keywords[3]); }
    if k < 4 {
      assert Mentions(title, Keywords[k]);
    }
  }

  /** A transcript title wins whatever other keyword it carries. */
  lemma TranscriptWins(title: string, other: string)
    ensures Classify(title + other) == Transcript <== Mentions(title, "transcript")
  {
    if Mentions(title, "transcript") {
      LowerAppend(title, other);
      ContainsInPrefix(Lower(title), Lower(other), "transcript");
    }
  }

  /** The heading lines of the four fixed previews (their bodies are sample text). */
  const TranscriptText: string := "ACADEMIC TRANSCRIPT"
  const CertificateText: string := "CERTIFICATE OF COMPLETION"
  const PassportText: string := "PASSPORT COPY"
  const LicenseText: string := "DRIVER LICENSE"

  const GenericHead: string := "DOCUMENT PREVIEW\n\nDocument: "
  const GenericBody: string :=
    "\n\nThis is a sample document preview. In a real application, \n"
    + "this would display the actual PDF content using a PDF \nviewer library.\n\n"
    + "Document Contents:\n"
    + "• Page 1: Introduction and Overview\n"
    + "• Page 2: Main Content and Details\n"
    + "• Page 3: Conclusion and Summary\n"
    + "• Page 4: Appendices and References\n\n"
    + "For full functionality, integrate with a PDF viewing \n"
    + "library such as react-native-pdf or similar.\n\nDocument ID: "

  /**
   The generic preview: a fixed template with the title, type, size and
   document id filled in, and the locale-formatted date passed in as text.
   */
  function GenericPreview(title: string, docType: string, size: string, documentId: string, lastModified: string): (r: string)
    ensures StartsWith(r, GenericHead + title)
    ensures Contains(r, title) && Contains(r, docType) && Contains(r, size) && Contains(r, documentId)
  {
    var r := GenericHead + (title + ("\nType: " + (docType + ("\nSize: " + (size
      + (GenericBody + (documentId + ("\nLast Modified: " + lastModified))))))));
    FieldsEmbedded(GenericHead, title, "\nType: ", docType, "\nSize: ", size, GenericBody, documentId,
      "\nLast Modified: " + lastModified);
    r
  }

  /** Four fields laid out between fixed separators can all be found in the result. */
  lemma FieldsEmbedded(s0: string, f1: string, s1: string, f2: string, s2: string, f3: string, s3: string, f4: string, s4: string)
    ensures var r := s0 + (f1 + (s1 + (f2 + (s2 + (f3 + (s3 + (f4 + s4)))))));
      && StartsWith(r, s0 + f1)
      && Contains(r, f1) && Contains(r, f2) && Contains(r, f3) && Contains(r, f4)
  {
    var t4 := f4 + s4;
    var t3 := f3 + (s3 + t4);
    var t2 := f2 + (s2 + t3);
    var t1 := f1 + (s1 + t2);
    var r := s0 + t1;
    StartsWithContains(f4, s4);
    ContainsInSuffix(s3, t4, f4);
    ContainsInSuffix(f3, s3 + t4, f4);
    StartsWithContains(f3, s3 + t4);
    ContainsInSuffix(s2, t3, f3);
    ContainsInSuffix(s2, t3, f4);
    ContainsInSuffix(f2, s2 + t3, f3);
    ContainsInSuffix(f2, s2 + t3, f4);
    StartsWithContains(f2, s2 + t3);
    ContainsInSuffix(s1, t2, f2);
    ContainsInSuffix(s1, t2, f3);
    ContainsInSuffix(s1, t2, f4);
    ContainsInSuffix(f1, s1 + t2, f2);
    ContainsInSuffix(f1, s1 + t2, f3);
    ContainsInSuffix(f1, s1 + t2, f4);
    StartsWithContains(f1, s1 + t2);
    ContainsInSuffix(s0, t1, f1);
    ContainsInSuffix(s0, t1, f2);
    ContainsInSuffix(s0, t1, f3);
    ContainsInSuffix(s0, t1, f4);
    assert r[..|s0 + f1|] == s0 + f1;
  }

  /** `getPDFContent`: the preview text for the screen's title. */
  function PreviewText(s: PdfScreen, lastModified: string): (r: string)
    ensures Classify(s.title) == Transcript ==> r == TranscriptText
    ensures Classify(s.title) == Certificate ==> r == CertificateText
    ensures Classify(s.title) == Passport ==> r == PassportText
    ensures Classify(s.title) == License ==> r == LicenseText
    ensures Classify(s.title) == Generic ==>
      Contains(r, s.title) && Contains(r, s.docType) && Contains(r, s.size) && Contains(r, s.documentId)
  {
    match Classify(s.title)
    case Transcript => TranscriptText
    case Certificate => CertificateText
    case Passport => PassportText
    case License => LicenseText
    case Generic => GenericPreview(s.title, s.docType, s.size, s.documentId, lastModified)
  }

  /** `handleBack` */
  function HandleBack(s: PdfScreen): (r: Step<PdfScreen>)
    ensures r.state == s && r.effects == [NavigateBack]
  {
    Step(s, [NavigateBack])
  }

  function OpenOptions(s: PdfScreen): (r: PdfScreen)
    ensures r.showOptionsModal && r.(showOptionsModal := s.showOptionsModal) == s
  {
    s.(showOptionsModal := true)
  }

  function CloseOptions(s: PdfScreen): (r: PdfScreen)
    ensures !r.showOptionsModal && r.(showOptionsModal := s.showOptionsModal) == s
  {
    s.(showOptionsModal := false)
  }

  /** The share message of a file: `Sharing document: <title>`. */
  function ShareMessage(title: string): (r: string)
    ensures |r| == 18 + |title| && r[18..] == title
    ensures r[..18] == "Sharing document: "
  {
    "Sharing document: " + title
  }

  /** `handleShare`: close the modal, then share the title. */
  function HandleShare(s: PdfScreen): (r: Step<PdfScreen>)
    ensures r.state == CloseOptions(s)
    ensures r.effects == [ShareSheet(ShareMessage(s.title), s.title)]
  {
    Step(CloseOptions(s), [ShareSheet(ShareMessage(s.title), s.title)])
  }

  /** `handleDownload`: close the modal, then show the placeholder notice. */
  function HandleDownload(s: PdfScreen): (r: Step<PdfScreen>)
    ensures r.state == CloseOptions(s)
    ensures r.effects == [ShowAlert("Download", "Download functionality would be implemented here")]
  {
    Step(CloseOptions(s), [ShowAlert("Download", "Download functionality would be implemented here")])
  }

  /** `handleDelete`: close the modal, then ask for confirmation naming the title. */
  function HandleDelete(s: PdfScreen): (r: Step<PdfScreen>)
    ensures r.state == CloseOptions(s)
    ensures r.effects == [AskDelete("Delete Document", DeletePrompt(s.title))]
  {
    Step(CloseOptions(s), [AskDelete("Delete Document", DeletePrompt(s.title))])
  }

  /** The confirmation's Delete button: report success and go back. */
  function ConfirmDelete(s: PdfScreen): (r: Step<PdfScreen>)
    ensures r.state == s
    ensures r.effects == [ShowAlert("Success", "Document deleted successfully!"), NavigateBack]
  {
    Step(s, [ShowAlert("Success", "Document deleted successfully!"), NavigateBack])
  }

  /** Every option of the modal leaves it closed. */
  lemma OptionsCloseModal(s: PdfScreen)
    ensures !HandleShare(s).state.showOptionsModal
    ensures !HandleDownload(s).state.showOptionsModal
    ensures !HandleDelete(s).state.showOptionsModal
  {
  }
}
