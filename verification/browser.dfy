/**
 The category browser screen: a list of category cards, or, once a category is
 selected, the documents of that category. Selecting a document routes it to
 the note viewer or the PDF viewer; its options modal offers view, edit (notes
 only), share and delete.
 */
module Browser {
  import opened Wrappers
  import opened Ui
  import opened Categories

  datatype BrowserState = BrowserState(
    documents: seq<Document>,
    selectedCategory: Option<string>,
    showOptionsModal: bool,
    selectedDocument: Option<Document>)

  /** The detail view is shown when `selectedCategory` is truthy: present and non-empty. */
  predicate InDetail(s: BrowserState)
    ensures InDetail(s) <==> |s.selectedCategory.GetOr("")| > 0
  {
    s.selectedCategory.Some? && s.selectedCategory.value != ""
  }

  /** The screen opened with an optional `category` route parameter (`category || null`). */
  function Init(docs: seq<Document>, category: Option<string>): (r: BrowserState)
    ensures r.documents == docs && !r.showOptionsModal && r.selectedDocument.None?
    ensures InDetail(r) <==> category.Some? && category.value != ""
    ensures InDetail(r) ==> r.selectedCategory == category
    ensures !InDetail(r) ==> r.selectedCategory.None?
  {
    var selected := if category.Some? && category.value != "" then category else None;
    BrowserState(docs, selected, false, None)
  }

  /** `filteredDocuments`: the selected category's documents, or nothing in the list view. */
  function FilteredDocuments(s: BrowserState): (r: seq<Document>)
    ensures !InDetail(s) ==> r == []
    ensures InDetail(s) ==> |r| == CountIn(s.documents, s.selectedCategory.value)
    ensures forall d :: d in r ==> d in s.documents && InCategory(d, s.selectedCategory.value)
    ensures InDetail(s) ==> forall d :: d in s.documents && InCategory(d, s.selectedCategory.value) ==> d in r
  {
    if InDetail(s) then
      FilterLengthIsCount(s.documents, s.selectedCategory.value);
      OfCategory(s.documents, s.selectedCategory.value)
    else []
  }

  /** `selectedCategoryData`: the card of the selected category, if its identifier names one. */
  function SelectedCategoryData(s: BrowserState): (r: Option<CategoryCard>)
    ensures r.Some? <==> s.selectedCategory.Some? && FromId(s.selectedCategory.value).Some?
    ensures r.Some? ==> r.value.id == s.selectedCategory.value
    ensures r.Some? ==> r.value.name == DisplayName(FromId(s.selectedCategory.value).value)
    ensures r.Some? && InDetail(s) ==> r.value.count == |FilteredDocuments(s)|
  {
    if s.selectedCategory.None? then None
    else
      var id := s.selectedCategory.value;
      FindCardKnown(s.documents, id);
      FilterLengthIsCount(s.documents, id);
      FindCard(Cards(s.documents), id)
  }

  /** The header: the selected category's name in the detail view (nothing for an unknown one). */
  function HeaderTitle(s: BrowserState): (r: string)
    ensures !InDetail(s) ==> r == "Document Categories"
    ensures InDetail(s) && FromId(s.selectedCategory.value).Some? ==>
      r == DisplayName(FromId(s.selectedCategory.value).value)
    ensures InDetail(s) && FromId(s.selectedCategory.value).None? ==> r == ""
  {
    if !InDetail(s) then "Document Categories"
    else
      var data := SelectedCategoryData(s);
      if data.Some? then data.value.name else ""
  }

  /** `handleBack`: leave the detail view, or leave the screen from the list view. */
  function HandleBack(s: BrowserState): (r: Step<BrowserState>)
    ensures InDetail(s) ==> r.state.selectedCategory.None? && r.effects == []
    ensures !InDetail(s) ==> r.state == s && r.effects == [NavigateBack]
    ensures !InDetail(r.state)
    ensures r.state.(selectedCategory := s.selectedCategory) == s
  {
    if InDetail(s) then Step(s.(selectedCategory := None), [])
    else Step(s, [NavigateBack])
  }

  /** `handleCategoryPress`: select a category; nothing else changes. */
  function HandleCategoryPress(s: BrowserState, categoryId: string): (r: BrowserState)
    ensures r.selectedCategory == Some(categoryId)
    ensures InDetail(r) <==> categoryId != ""
    ensures r.(selectedCategory := s.selectedCategory) == s
  {
    s.(selectedCategory := Some(categoryId))
  }

  /** A card's count is the length of the list shown after pressing that card. */
  lemma CardCountMatchesDetail(s: BrowserState, i: nat)
    requires i < |Cards(s.documents)|
    ensures Cards(s.documents)[i].count == |FilteredDocuments(HandleCategoryPress(s, Cards(s.documents)[i].id))|
  {
    var id := Cards(s.documents)[i].id;
    FilterLengthIsCount(s.documents, id);
  }

  /** Selecting a category and going back restores the list view exactly. */
  lemma PressThenBackRestores(s: BrowserState, categoryId: string)
    requires s.selectedCategory.None? && categoryId != ""
    ensures InDetail(HandleCategoryPress(s, categoryId))
    ensures HandleBack(HandleCategoryPress(s, categoryId)) == Step(s, [])
  {
  }

  /** The route parameters of a note: `content` falls back to the empty string. */
  function NoteParams(d: Document): map<string, string> {
    map["noteId" := d.id, "title" := d.name, "content" := d.content.GetOr(""), "date" := d.uploadDate]
  }

  /** `handleDocumentPress`: notes open in the note viewer, every other category in the PDF viewer. */
  function Route(d: Document): (r: Effect)
    ensures r.Push?
    ensures r.path == NoteViewerPath <==> d.category == Notes
    ensures r.path == PdfViewerPath <==> d.category != Notes
    ensures d.category == Notes ==>
      && r.params.Keys == {"noteId", "title", "content", "date"}
      && r.params["noteId"] == d.id && r.params["title"] == d.name
      && r.params["content"] == (if d.content.Some? then d.content.value else "")
      && r.params["date"] == d.uploadDate
    ensures d.category != Notes ==>
      && r.params.Keys == {"documentId", "title", "type", "size"}
      && r.params["documentId"] == d.id && r.params["title"] == d.name
      && r.params["type"] == d.docType && r.params["size"] == d.size
  {
    if d.category == Notes then Push(NoteViewerPath, NoteParams(d))
    else Push(PdfViewerPath, map["documentId" := d.id, "title" := d.name, "type" := d.docType, "size" := d.size])
  }

  function HandleDocumentPress(s: BrowserState, d: Document): (r: Step<BrowserState>)
    ensures r.state == s && r.effects == [Route(d)]
  {
    Step(s, [Route(d)])
  }

  /** `handleDocumentOptions`: remember the document and open its options modal. */
  function HandleDocumentOptions(s: BrowserState, d: Document): (r: BrowserState)
    ensures r.selectedDocument == Some(d) && r.showOptionsModal
    ensures r.documents == s.documents && r.selectedCategory == s.selectedCategory
  {
    s.(selectedDocument := Some(d), showOptionsModal := true)
  }

  /** The modal's Cancel button and its request-close: hide the modal. */
  function CloseOptions(s: BrowserState): (r: BrowserState)
    ensures !r.showOptionsModal
    ensures r.(showOptionsModal := s.showOptionsModal) == s
  {
    s.(showOptionsModal := false)
  }

  /** `handleViewDocument`: close the modal, then route the remembered document as a press would. */
  function HandleViewDocument(s: BrowserState): (r: Step<BrowserState>)
    ensures r.state == CloseOptions(s)
    ensures s.selectedDocument.None? ==> r.effects == []
    ensures s.selectedDocument.Some? ==> r.effects == HandleDocumentPress(s, s.selectedDocument.value).effects
  {
    var closed := CloseOptions(s);
    if s.selectedDocument.Some? then Step(closed, [Route(s.selectedDocument.value)]) else Step(closed, [])
  }

  /**
   The share message as written: a note's absent `content` is interpolated into
   the template literal and prints as `undefined`.
   */
  function ShareMessageAsWritten(d: Document): (r: string)
    ensures d.category != Notes ==> r == "Sharing document: " + d.name
    ensures d.category == Notes && d.content.Some? ==> r == TitledText(d.name, d.content.value)
    ensures d.category == Notes && d.content.None? ==> r == TitledText(d.name, "undefined")
  {
    if d.category == Notes then TitledText(d.name, d.content.GetOr("undefined"))
    else "Sharing document: " + d.name
  }

  /** The share message with an absent note body read as empty, as the routing to the note viewer reads it. */
  function ShareMessage(d: Document): (r: string)
    ensures d.category != Notes ==> r == "Sharing document: " + d.name
    ensures d.category == Notes ==> r == TitledText(d.name, NoteParams(d)["content"])
    ensures d.content.Some? ==> r == ShareMessageAsWritten(d)
  {
    if d.category == Notes then TitledText(d.name, d.content.GetOr(""))
    else "Sharing document: " + d.name
  }

  /**
   `handleShareDocument` as written: close the modal, then hand the remembered
   document to the share sheet with the as-written message.
   */
  function HandleShareDocument(s: BrowserState): (r: Step<BrowserState>)
    ensures r.state == CloseOptions(s)
    ensures s.selectedDocument.None? ==> r.effects == []
    ensures s.selectedDocument.Some? ==>
      r.effects == [ShareSheet(ShareMessageAsWritten(s.selectedDocument.value), s.selectedDocument.value.name)]
  {
    var closed := CloseOptions(s);
    if s.selectedDocument.Some? then
      var d := s.selectedDocument.value;
      Step(closed, [ShareSheet(ShareMessageAsWritten(d), d.name)])
    else Step(closed, [])
  }

  /**
   `handleShareDocument` with an absent note body shared as empty. It differs
   from the handler as written only for a remembered note without a body.
   */
  function HandleShareDocumentCorrected(s: BrowserState): (r: Step<BrowserState>)
    ensures r.state == CloseOptions(s)
    ensures s.selectedDocument.None? ==> r.effects == []
    ensures s.selectedDocument.Some? ==>
      r.effects == [ShareSheet(ShareMessage(s.selectedDocument.value), s.selectedDocument.value.name)]
    ensures s.selectedDocument.None? || s.selectedDocument.value.content.Some? ==> r == HandleShareDocument(s)
  {
    var closed := CloseOptions(s);
    if s.selectedDocument.Some? then
      var d := s.selectedDocument.value;
      Step(closed, [ShareSheet(ShareMessage(d), d.name)])
    else Step(closed, [])
  }

  /** `handleDeleteDocument`: ask for confirmation; the modal stays open and nothing changes yet. */
  function HandleDeleteDocument(s: BrowserState): (r: Step<BrowserState>)
    ensures r.state == s
    ensures s.selectedDocument.None? ==> r.effects == []
    ensures s.selectedDocument.Some? ==>
      r.effects == [AskDelete("Delete Item", DeletePrompt(s.selectedDocument.value.name))]
  {
    if s.selectedDocument.Some? then
      Step(s, [AskDelete("Delete Item", DeletePrompt(s.selectedDocument.value.name))])
    else Step(s, [])
  }

  /** The confirmation's Delete button: hide the modal and forget the document; the collection is untouched. */
  function ConfirmDelete(s: BrowserState): (r: Step<BrowserState>)
    ensures !r.state.showOptionsModal && r.state.selectedDocument.None?
    ensures r.state.documents == s.documents && r.state.selectedCategory == s.selectedCategory
    ensures r.effects == [ShowAlert("Success", "Item deleted successfully!")]
  {
    Step(s.(showOptionsModal := false, selectedDocument := None), [ShowAlert("Success", "Item deleted successfully!")])
  }

  /** Deleting changes no count on any screen of the browser. */
  lemma DeleteKeepsCounts(s: BrowserState)
    ensures Cards(ConfirmDelete(s).state.documents) == Cards(s.documents)
    ensures StorageOverview(ConfirmDelete(s).state.documents) == StorageOverview(s.documents)
    ensures FilteredDocuments(ConfirmDelete(s).state) == FilteredDocuments(s)
  {
  }

  /** `handleEditNote`: close the modal; a remembered note opens in the note viewer with the routing's parameters. */
  function HandleEditNote(s: BrowserState): (r: Step<BrowserState>)
    ensures r.state == CloseOptions(s)
    ensures s.selectedDocument.Some? && s.selectedDocument.value.category == Notes ==>
      r.effects == [Route(s.selectedDocument.value)]
    ensures !(s.selectedDocument.Some? && s.selectedDocument.value.category == Notes) ==> r.effects == []
  {
    var closed := CloseOptions(s);
    if s.selectedDocument.Some? && s.selectedDocument.value.category == Notes then
      Step(closed, [Push(NoteViewerPath, NoteParams(s.selectedDocument.value))])
    else Step(closed, [])
  }

  /** The label of the option that opens a document. */
  function ViewOptionLabel(d: Document): (r: string)
    ensures r == "View Note" <==> d.category == Notes
    ensures r == "View Document" <==> d.category != Notes
  {
    if d.category == Notes then "View Note" else "View Document"
  }
}
