/**
 The collection the category browser ships with, as one concrete instance of
 the model. Note bodies are abbreviated to their first line.
 */
module SampleData {
  import opened Wrappers
  import opened Categories
  import opened Text
  import PdfViewer

  function Pdf(id: string, name: string, size: string, date: string, c: Category): Document {
    Document(id, name, "PDF", size, date, c, None)
  }

  function Note(id: string, name: string, size: string, date: string, body: string): Document {
    Document(id, name, "NOTE", size, date, Notes, Some(body))
  }

  const AcademicSample: seq<Document> := [
    Pdf("1", "Academic Transcript.pdf", "2.4 MB", "2024-01-15", Academic),
    Pdf("2", "Degree Certificate.pdf", "1.8 MB", "2024-01-14", Academic),
    Pdf("3", "Research Paper.pdf", "3.2 MB", "2024-01-13", Academic)]
  const CertificateSample: seq<Document> := [
    Pdf("4", "Course Completion Certificate.pdf", "1.2 MB", "2024-01-13", Certificates),
    Pdf("5", "Professional Certification.pdf", "2.1 MB", "2024-01-12", Certificates),
    Pdf("6", "AWS Certificate.pdf", "1.7 MB", "2024-01-11", Certificates)]
  const GovtSample: seq<Document> := [
    Pdf("7", "Passport Copy.pdf", "3.2 MB", "2024-01-11", GovtProof),
    Pdf("8", "Driver License.pdf", "1.5 MB", "2024-01-10", GovtProof),
    Pdf("9", "Birth Certificate.pdf", "2.0 MB", "2024-01-09", GovtProof)]
  const OtherSample: seq<Document> := [
    Pdf("10", "Insurance Document.pdf", "2.8 MB", "2024-01-09", Others),
    Pdf("11", "Bank Statement.pdf", "1.9 MB", "2024-01-08", Others)]
  const NoteSample: seq<Document> := [
    Note("note-1", "Study Notes for Exam", "245 chars", "2024-01-15", "Important points for upcoming exam:"),
    Note("note-2", "Meeting Notes - Project Alpha", "312 chars", "2024-01-14", "Project Alpha Meeting Notes:"),
    Note("note-3", "Book Summary - Clean Code", "428 chars", "2024-01-13",
      "Clean Code by Robert C. Martin - Key Takeaways:"),
    Note("note-4", "Recipe Ideas", "189 chars", "2024-01-12", "Healthy Recipe Ideas:")]

  /** The fifteen sample items in their listed order. */
  const Sample: seq<Document> := AcademicSample + CertificateSample + GovtSample + OtherSample + NoteSample

  lemma AcademicSampleCount(id: string)
    ensures CountIn(AcademicSample, id) == if id == "academic" then 3 else 0
  {
    CountInUniform(AcademicSample, Academic, id);
  }

  lemma CertificateSampleCount(id: string)
    ensures CountIn(CertificateSample, id) == if id == "certificates" then 3 else 0
  {
    CountInUniform(CertificateSample, Certificates, id);
  }

  lemma GovtSampleCount(id: string)
    ensures CountIn(GovtSample, id) == if id == "govt-proof" then 3 else 0
  {
    CountInUniform(GovtSample, GovtProof, id);
  }

  lemma OtherSampleCount(id: string)
    ensures CountIn(OtherSample, id) == if id == "others" then 2 else 0
  {
    CountInUniform(OtherSample, Others, id);
  }

  lemma NoteSampleCount(id: string)
    ensures CountIn(NoteSample, id) == if id == "notes" then 4 else 0
  {
    CountInUniform(NoteSample, Notes, id);
  }

  /** The number of sample items of category `id`, block by block. */
  lemma SampleCountIn(id: string)
    ensures CountIn(Sample, id) ==
      (if id == "academic" then 3 else 0) + (if id == "certificates" then 3 else 0)
      + (if id == "govt-proof" then 3 else 0) + (if id == "others" then 2 else 0)
      + (if id == "notes" then 4 else 0)
  {
    AcademicSampleCount(id);
    CertificateSampleCount(id);
    GovtSampleCount(id);
    OtherSampleCount(id);
    NoteSampleCount(id);
    var b1 := AcademicSample + CertificateSample;
    var b2 := b1 + GovtSample;
    var b3 := b2 + OtherSample;
    CountInAppend(AcademicSample, CertificateSample, id);
    CountInAppend(b1, GovtSample, id);
    CountInAppend(b2, OtherSample, id);
    CountInAppend(b3, NoteSample, id);
  }

  /** The counts the category cards and the storage overview show for the sample collection. */
  lemma SampleCounts()
    ensures [Cards(Sample)[0].count, Cards(Sample)[1].count, Cards(Sample)[2].count,
             Cards(Sample)[3].count, Cards(Sample)[4].count] == [3, 3, 3, 4, 2]
    ensures StorageOverview(Sample) == Overview(15, 11, 4)
  {
    SampleCountIn("academic");
    SampleCountIn("certificates");
    SampleCountIn("govt-proof");
    SampleCountIn("notes");
    SampleCountIn("others");
  }

  /** A document's type and body agree with whether it is filed under notes. */
  predicate KindMatchesCategory(d: Document) {
    && (d.category == Notes <==> d.docType == "NOTE")
    && (d.category == Notes <==> d.content.Some?)
  }

  lemma AllKindsMatch(a: seq<Document>, b: seq<Document>)
    requires forall d :: d in a ==> KindMatchesCategory(d)
    requires forall d :: d in b ==> KindMatchesCategory(d)
    ensures forall d :: d in a + b ==> KindMatchesCategory(d)
  {
  }

  /** In the sample, the notes category holds exactly the documents of type `NOTE`, which are the ones with a body. */
  lemma SampleNotesAreNoteType()
    ensures forall d :: d in Sample ==> KindMatchesCategory(d)
  {
    assert forall d :: d in AcademicSample ==> KindMatchesCategory(d);
    assert forall d :: d in CertificateSample ==> KindMatchesCategory(d);
    AllKindsMatch(AcademicSample, CertificateSample);
    assert forall d :: d in GovtSample ==> KindMatchesCategory(d);
    AllKindsMatch(AcademicSample + CertificateSample, GovtSample);
    assert forall d :: d in OtherSample ==> KindMatchesCategory(d);
    AllKindsMatch(AcademicSample + CertificateSample + GovtSample, OtherSample);
    assert forall d :: d in NoteSample ==> KindMatchesCategory(d);
    AllKindsMatch(AcademicSample + CertificateSample + GovtSample + OtherSample, NoteSample);
  }

  /** A keyword with a letter the title lacks in both cases is not mentioned. */
  lemma Lacks(title: string, keyword: string, c: char)
    requires 'a' <= c <= 'z' && c in keyword
    requires c !in title && (c as int - 32) as char !in title
    ensures !PdfViewer.Mentions(title, keyword)
  {
    MissingFromLower(title, c);
    MissingCharNotContained(Lower(title), keyword, c);
  }

  /** A keyword whose letters match the title at position `i`, ignoring case, is mentioned. */
  lemma MentionsAt(title: string, keyword: string, i: nat)
    requires i + |keyword| <= |title|
    requires forall j :: 0 <= j < |keyword| ==> LowerChar(title[i + j]) == keyword[j]
    ensures PdfViewer.Mentions(title, keyword)
  {
    var t := Lower(title);
    assert t[i..i + |keyword|] == keyword;
    OccursContains(t, keyword, i);
  }

  /** A transcript title gets the transcript preview: the keyword sits at position 9. */
  lemma TranscriptSamplePreview()
    ensures PdfViewer.Classify("Academic Transcript.pdf") == PdfViewer.Transcript
  {
    TranscriptSampleClassified("Academic Transcript.pdf");
  }

  lemma TranscriptSampleClassified(title: string)
    requires title == "Academic Transcript.pdf"
    ensures PdfViewer.Classify(title) == PdfViewer.Transcript
  {
    TranscriptSampleMentionsTranscript(title);
  }

  lemma TranscriptSampleMentionsTranscript(title: string)
    requires title == "Academic Transcript.pdf"
    ensures PdfViewer.Mentions(title, "transcript")
  {
    MentionsAt(title, "transcript", 9);
  }

  /** "Birth Certificate.pdf" gets the certificate preview: it has no `n`, so no transcript. */
  lemma CertificateSamplePreview()
    ensures PdfViewer.Classify("Birth Certificate.pdf") == PdfViewer.Certificate
  {
    CertificateSampleClassified("Birth Certificate.pdf");
  }

  lemma CertificateSampleClassified(title: string)
    requires title == "Birth Certificate.pdf"
    ensures PdfViewer.Classify(title) == PdfViewer.Certificate
  {
    CertificateSampleLacksTranscript(title);
    CertificateSampleMentionsCertificate(title);
  }

  lemma CertificateSampleLacksTranscript(title: string)
    requires title == "Birth Certificate.pdf"
    ensures !PdfViewer.Mentions(title, "transcript")
  {
    Lacks(title, "transcript", 'n');
  }

  lemma CertificateSampleMentionsCertificate(title: string)
    requires title == "Birth Certificate.pdf"
    ensures PdfViewer.Mentions(title, "certificate")
  {
    MentionsAt(title, "certificate", 6);
  }

  /** "Passport Copy.pdf" has neither an `n` nor an `e`, so only the passport keyword matches. */
  lemma PassportSamplePreview()
    ensures PdfViewer.Classify("Passport Copy.pdf") == PdfViewer.Passport
  {
    PassportSampleClassified("Passport Copy.pdf");
  }

  lemma PassportSampleClassified(title: string)
    requires title == "Passport Copy.pdf"
    ensures PdfViewer.Classify(title) == PdfViewer.Passport
  {
    PassportSampleLacksTranscript(title);
    PassportSampleLacksCertificate(title);
    PassportSampleMentionsPassport(title);
  }

  lemma PassportSampleLacksTranscript(title: string)
    requires title == "Passport Copy.pdf"
    ensures !PdfViewer.Mentions(title, "transcript")
  {
    Lacks(title, "transcript", 'n');
  }

  lemma PassportSampleLacksCertificate(title: string)
    requires title == "Passport Copy.pdf"
    ensures !PdfViewer.Mentions(title, "certificate")
  {
    Lacks(title, "certificate", 'e');
  }

  lemma PassportSampleMentionsPassport(title: string)
    requires title == "Passport Copy.pdf"
    ensures PdfViewer.Mentions(title, "passport")
  {
    MentionsAt(title, "passport", 0);
  }

  /** "Driver License.pdf" has no `t`, so the first three keywords miss and the license one matches. */
  lemma LicenseSamplePreview()
    ensures PdfViewer.Classify("Driver License.pdf") == PdfViewer.License
  {
    LicenseSampleClassified("Driver License.pdf");
  }

  lemma LicenseSampleClassified(title: string)
    requires title == "Driver License.pdf"
    ensures PdfViewer.Classify(title) == PdfViewer.License
  {
    LicenseSampleLacksTranscript(title);
    LicenseSampleLacksCertificate(title);
    LicenseSampleLacksPassport(title);
    LicenseSampleMentionsLicense(title);
  }

  lemma LicenseSampleLacksTranscript(title: string)
    requires title == "Driver License.pdf"
    ensures !PdfViewer.Mentions(title, "transcript")
  {
    Lacks(title, "transcript", 't');
  }

  lemma LicenseSampleLacksCertificate(title: string)
    requires title == "Driver License.pdf"
    ensures !PdfViewer.Mentions(title, "certificate")
  {
    Lacks(title, "certificate", 't');
  }

  lemma LicenseSampleLacksPassport(title: string)
    requires title == "Driver License.pdf"
    ensures !PdfViewer.Mentions(title, "passport")
  {
    Lacks(title, "passport", 't');
  }

  lemma LicenseSampleMentionsLicense(title: string)
    requires title == "Driver License.pdf"
    ensures PdfViewer.Mentions(title, "license")
  {
    MentionsAt(title, "license", 7);
  }

  /** "Research Paper.pdf" has neither a `t` nor an `l`, so it gets the generic preview. */
  lemma GenericSamplePreview()
    ensures PdfViewer.Classify("Research Paper.pdf") == PdfViewer.Generic
  {
    GenericSampleClassified("Research Paper.pdf");
  }

  lemma GenericSampleClassified(title: string)
    requires title == "Research Paper.pdf"
    ensures PdfViewer.Classify(title) == PdfViewer.Generic
  {
    GenericSampleLacksTranscript(title);
    GenericSampleLacksCertificate(title);
    GenericSampleLacksPassport(title);
    GenericSampleLacksLicense(title);
  }

  lemma GenericSampleLacksTranscript(title: string)
    requires title == "Research Paper.pdf"
    ensures !PdfViewer.Mentions(title, "transcript")
  {
    Lacks(title, "transcript", 't');
  }

  lemma GenericSampleLacksCertificate(title: string)
    requires title == "Research Paper.pdf"
    ensures !PdfViewer.Mentions(title, "certificate")
  {
    Lacks(title, "certificate", 't');
  }

  lemma GenericSampleLacksPassport(title: string)
    requires title == "Research Paper.pdf"
    ensures !PdfViewer.Mentions(title, "passport")
  {
    Lacks(title, "passport", 't');
  }

  lemma GenericSampleLacksLicense(title: string)
    requires title == "Research Paper.pdf"
    ensures !PdfViewer.Mentions(title, "license")
  {
    Lacks(title, "license", 'l');
  }

  /**
   A three-item collection: an academic item, a note and another academic item
   give a count of two and keep the academic items in order.
   */
  lemma ThreeItemExample(i1: Document, i2: Document, i3: Document)
    requires i1.category == Academic && i2.category == Notes && i3.category == Academic
    ensures CountIn([i1, i2, i3], "academic") == 2
    ensures OfCategory([i1, i2, i3], "academic") == [i1, i3]
  {
    var docs := [i1, i2, i3];
    assert docs[1..] == [i2, i3];
    assert [i2, i3][1..] == [i3];
    assert [i3][1..] == [];
    assert OfCategory([i3], "academic") == [i3];
    assert OfCategory([i2, i3], "academic") == [i3];
    FilterLengthIsCount(docs, "academic");
  }
}
