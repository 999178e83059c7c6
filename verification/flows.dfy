/**
 Properties that span screens: what the category browser hands to the note
 viewer and the PDF viewer through route parameters, and how their share
 messages relate.
 */
module Flows {
  import opened Wrappers
  import opened Ui
  import opened Categories
  import opened Browser
  import NoteViewer
  import PdfViewer

  /** Opening a note from the browser starts the editor, viewing, on the note's name and body. */
  lemma NoteRouteOpensEditor(d: Document)
    requires d.category == Notes
    ensures Route(d).path == NoteViewerPath
    ensures NoteViewer.Init(Route(d).params) == NoteViewer.NoteState(false, d.name, d.content.GetOr(""), false)
  {
  }

  /** Opening any other document shows the PDF viewer on its id, name, type and size. */
  lemma FileRouteOpensPreview(d: Document)
    requires d.category != Notes
    ensures Route(d).path == PdfViewerPath
    ensures PdfViewer.Open(Route(d).params) == Some(PdfViewer.PdfScreen(d.id, d.name, d.docType, d.size, false))
  {
  }

  /** The edit option of a note opens the same editor state as pressing the note. */
  lemma EditNoteOpensEditor(s: BrowserState)
    requires s.selectedDocument.Some? && s.selectedDocument.value.category == Notes
    ensures var e := HandleEditNote(s).effects;
      && |e| == 1 && e[0].Push? && e[0].path == NoteViewerPath
      && NoteViewer.Init(e[0].params)
         == NoteViewer.Init(HandleDocumentPress(s, s.selectedDocument.value).effects[0].params)
  {
  }

  /**
   The corrected share message equals what the screen a document routes to
   would share right after opening, for notes and files. For files the message
   as written agrees as well.
   */
  lemma ShareAgreesAcrossScreens(d: Document)
    ensures d.category == Notes ==>
      NoteViewer.HandleShare(NoteViewer.Init(Route(d).params)).effects == [ShareSheet(ShareMessage(d), d.name)]
    ensures d.category != Notes ==>
      PdfViewer.Open(Route(d).params).Some?
      && PdfViewer.HandleShare(PdfViewer.Open(Route(d).params).value).effects == [ShareSheet(ShareMessage(d), d.name)]
    ensures d.category != Notes ==>
      PdfViewer.HandleShare(PdfViewer.Open(Route(d).params).value).effects == [ShareSheet(ShareMessageAsWritten(d), d.name)]
  {
    if d.category != Notes {
      FileRouteOpensPreview(d);
    }
  }

  /** The corrected share handler agrees with the note viewer opened on the remembered note. */
  lemma BrowserShareMatchesViewer(s: BrowserState)
    requires s.selectedDocument.Some?
    ensures var d := s.selectedDocument.value;
      d.category == Notes ==>
        HandleShareDocumentCorrected(s).effects == NoteViewer.HandleShare(NoteViewer.Init(Route(d).params)).effects
  {
    ShareAgreesAcrossScreens(s.selectedDocument.value);
  }

  /** The share handler as written agrees with the note viewer for every note that has a body. */
  lemma AsWrittenShareMatchesViewerWithBody(s: BrowserState)
    requires s.selectedDocument.Some? && s.selectedDocument.value.content.Some?
    ensures var d := s.selectedDocument.value;
      d.category == Notes ==>
        HandleShareDocument(s).effects == NoteViewer.HandleShare(NoteViewer.Init(Route(d).params)).effects
  {
    BrowserShareMatchesViewer(s);
  }

  /**
   As written, a note without a body breaks that agreement: the browser shares
   the body `undefined` while the note viewer opened on it shares an empty body.
   */
  lemma AsWrittenShareDisagreesWithViewer()
    ensures var d := Document("n", "Todo", "NOTE", "0 chars", "2024-01-01", Notes, None);
      var s := BrowserState([d], Some("notes"), true, Some(d));
      var browser := HandleShareDocument(s).effects[0].message;
      var viewer := NoteViewer.HandleShare(NoteViewer.Init(Route(d).params)).effects[0].message;
      && browser == "Todo\n\nundefined"
      && viewer == "Todo\n\n"
      && browser != viewer
  {
    var d := Document("n", "Todo", "NOTE", "0 chars", "2024-01-01", Notes, None);
    var s := BrowserState([d], Some("notes"), true, Some(d));
    var browser := HandleShareDocument(s).effects[0].message;
    assert browser == "Todo" + "\n\n" + "undefined";
    var viewer := NoteViewer.HandleShare(NoteViewer.Init(Route(d).params)).effects[0].message;
    assert viewer == TitledText("Todo", "");
    assert |browser| != |viewer|;
  }
}
