# Document vault screens: a functional model

The application has three screens over an in-memory collection of documents and notes:

- a **category browser** (`app/feature/document-categories.tsx`). It shows five category cards with counts and a storage overview. After a category is selected it shows that category's documents, each with an options modal (view, edit note, share, delete).
- a **note viewer** (`app/feature/note-viewer.tsx`). It toggles between viewing and editing a note. Saving requires a title and a content that are non-blank after trimming.
- a **PDF viewer** (`app/feature/pdf-viewer.tsx`). It picks a preview text from the document title by a prioritised chain of case-insensitive keyword tests: transcript, certificate, passport, license, otherwise a generic template.

The model is purely functional. Each screen's local state is an immutable datatype. Each handler is a function from a state to a `Ui.Step`: the next state plus the effects the handler asks the platform for. Those effects are navigation (`NavigateBack`, `Push(path, params)`), alerts, confirmation dialogs and the share sheet. Route parameters are a `map<string, string>`.

Modules:

| module | file | models |
|---|---|---|
| `Wrappers` | wrappers.dfy | `Option` for `undefined` / `null` |
| `Text` | text.dfy | `toLowerCase` (ASCII), `includes`, `trim` |
| `Ui` | ui.dfy | effects, route-parameter reads, shared message formats |
| `Categories` | categories.dfy | the `Document` record, the category filter, counts, cards, storage overview |
| `Browser` | browser.dfy | the category browser's state and handlers |
| `NoteViewer` | noteviewer.dfy | the note editor state machine |
| `PdfViewer` | pdfviewer.dfy | preview dispatch and the PDF viewer's handlers |
| `Flows` | flows.dfy | what one screen hands another through route parameters |
| `SampleData` | sampledata.dfy | the shipped sample collection as a concrete instance |

Facts about the code that the model keeps:

- Category identifiers are `academic`, `certificates`, `govt-proof`, `others` and `notes`.
- Routing to the note viewer is decided by `category === 'notes'`; the `type` field plays no part.
- That notes are exactly the `NOTE`-typed items holds only of the sample data (`SampleData.SampleNotesAreNoteType`); nothing in the code enforces it.
- The browser's share handler is modelled as written (`Browser.HandleShareDocument`), including the defect listed under "## Findings". The corrected handler (`Browser.HandleShareDocumentCorrected`) agrees with the note viewer for every note (`Flows.BrowserShareMatchesViewer`); the handler as written agrees with it only for notes that have a body (`Flows.AsWrittenShareMatchesViewerWithBody`).

## Model

| member | source | states |
|---|---|---|
| `Categories.FromId` | app/feature/document-categories.tsx:36 | Parsing a category identifier inverts `Id`: it succeeds exactly for the five identifiers, with the category of that identifier |
| `Categories.OfCategory` | app/feature/document-categories.tsx:334-336 | The filtered list holds only documents of the collection with the given category, holds every such document, and is empty for an unknown identifier |
| `Categories.NotOfCategory` | app/feature/document-categories.tsx:513-515 | The complementary filter holds exactly the collection's documents of any other category |
| `Categories.FilterLengthIsCount` | app/feature/document-categories.tsx:191-223 | The length of the filtered list equals an independent count of matching positions |
| `Categories.FilterIsSubsequence` | app/feature/document-categories.tsx:335 | The filtered list is an order-preserving subsequence of the collection |
| `Categories.FilterMultiplicity` | app/feature/document-categories.tsx:335 | Each document of the category occurs in the filtered list exactly as often as in the collection; no other document occurs |
| `Categories.FilterPartition` | app/feature/document-categories.tsx:509-521 | The "notes" and "not notes" filters split the collection as a multiset |
| `Categories.FilterPartitionSize` | app/feature/document-categories.tsx:509-521 | The two filtered lists are together exactly as long as the collection |
| `Categories.CountsCoverCollection` | app/feature/document-categories.tsx:184-225 | The five per-category counts add up to the collection size |
| `Categories.CountInAppend` | app/feature/document-categories.tsx:191 | Counting a category over a joined collection adds the counts of the parts |
| `Categories.Card` | app/feature/document-categories.tsx:185-192 | A card carries its category's identifier and display name and the number of documents of that category |
| `Categories.Cards` | app/feature/document-categories.tsx:184-225 | Five cards in display order (Academic, Certificates, Government Proof, Notes, Others), each counting its category |
| `Categories.CardsCoverCategories` | app/feature/document-categories.tsx:184-225 | Every category has a card, and the card counts sum to the collection size |
| `Categories.InCategory` | app/feature/document-categories.tsx:191 | `doc.category === id` holds exactly when the identifier parses to the document's category |
| `Categories.FindCard` | app/feature/document-categories.tsx:338 | A found card is the first card in the list with the identifier; nothing found means no card has it |
| `Categories.FindCardKnown` | app/feature/document-categories.tsx:338 | Looking up a card succeeds exactly for the five category identifiers and yields that category's card |
| `Categories.StorageOverview` | app/feature/document-categories.tsx:505-525 | Documents plus notes equals total items; notes is the count of the notes category |
| `Categories.CountLabel` | app/feature/document-categories.tsx:349-351 | The label is `item` exactly when the count is 1, `items` otherwise |
| `Browser.InDetail` | app/feature/document-categories.tsx:228 | The detail view is shown exactly when `selectedCategory` is truthy: present and non-empty |
| `Browser.Init` | app/feature/document-categories.tsx:50-53 | The screen opens in the detail view exactly when a non-empty category parameter is given; modal closed, no document remembered |
| `Browser.FilteredDocuments` | app/feature/document-categories.tsx:334-336 | Empty in the list view; in the detail view the selected category's documents, all of them, as many as the category count |
| `Browser.SelectedCategoryData` | app/feature/document-categories.tsx:338 | The selected card exists exactly for a known identifier; it has that identifier and name, and its count equals the detail list's length |
| `Browser.HeaderTitle` | app/feature/document-categories.tsx:394 | The detail header is the selected category's name, or empty for an unknown identifier; the list header is fixed |
| `Browser.HandleBack` | app/feature/document-categories.tsx:227-233 | In the detail view back clears the selection without navigating; in the list view it navigates back and changes nothing; afterwards the list view shows |
| `Browser.HandleCategoryPress` | app/feature/document-categories.tsx:235-237 | Pressing a card selects its identifier and changes nothing else |
| `Browser.CardCountMatchesDetail` | app/feature/document-categories.tsx:334-335 | Every card's count equals the length of the list shown after pressing that card |
| `Browser.PressThenBackRestores` | app/feature/document-categories.tsx:227-237 | From the list view, selecting a category and going back returns exactly the starting state with no navigation |
| `Browser.Route` | app/feature/document-categories.tsx:239-263 | Notes go to the note viewer with id, name, content (or empty) and date; every other category goes to the PDF viewer with id, name, type and size |
| `Browser.HandleDocumentPress` | app/feature/document-categories.tsx:239-263 | Pressing a document issues its route and changes no state |
| `Browser.HandleDocumentOptions` | app/feature/document-categories.tsx:265-268 | Opening options remembers the document and shows the modal, leaving collection and selection alone |
| `Browser.CloseOptions` | app/feature/document-categories.tsx:464-467 | Cancel hides the modal and changes nothing else |
| `Browser.HandleViewDocument` | app/feature/document-categories.tsx:270-275 | View closes the modal, then routes the remembered document exactly as pressing it would, or does nothing without one |
| `Browser.ShareMessageAsWritten` | app/feature/document-categories.tsx:281-290 | As written: a note shares as name, blank line and body, where an absent body prints `undefined`; a file shares `Sharing document: <name>` |
| `Browser.ShareMessage` | app/feature/document-categories.tsx:281-290 | Corrected: a note shares as name, blank line and the body the note viewer would receive; files as written; equal to the as-written message whenever a body exists |
| `Browser.HandleShareDocument` | app/feature/document-categories.tsx:277-296 | As written: share closes the modal, then hands the remembered document's as-written message (an absent note body prints `undefined`) and name to the share sheet; nothing is shared without a remembered document |
| `Browser.HandleShareDocumentCorrected` | app/feature/document-categories.tsx:277-296 | Corrected: as the handler as written, but with an absent note body shared as empty; identical to the handler as written unless the remembered note has no body |
| `Browser.HandleDeleteDocument` | app/feature/document-categories.tsx:298-317 | Delete only asks for confirmation naming the document; state is unchanged and the modal stays open |
| `Browser.ConfirmDelete` | app/feature/document-categories.tsx:305-313 | Confirming hides the modal and forgets the document, leaves the collection and selection unchanged, and reports success |
| `Browser.DeleteKeepsCounts` | app/feature/document-categories.tsx:308-311 | After a confirmed delete all card counts, the storage overview and the detail list are unchanged |
| `Browser.HandleEditNote` | app/feature/document-categories.tsx:319-332 | Edit closes the modal; a remembered note is routed to the note viewer as pressing it would; otherwise nothing |
| `Browser.ViewOptionLabel` | app/feature/document-categories.tsx:443 | The view option reads `View Note` exactly for notes, `View Document` otherwise |
| `NoteViewer.Init` | app/feature/note-viewer.tsx:24-27 | The editor opens viewing, modal closed, with buffers equal to the `title` / `content` parameters or empty when absent |
| `NoteViewer.CanSave` | app/feature/note-viewer.tsx:50 | The validator rejects exactly when the title or the content consists only of whitespace (or is empty) |
| `NoteViewer.HandleEdit` | app/feature/note-viewer.tsx:45-47 | Edit enters the editor and changes nothing else |
| `NoteViewer.HandleEditIdempotent` | app/feature/note-viewer.tsx:45-47 | Editing twice equals editing once |
| `NoteViewer.SetTitle` | app/feature/note-viewer.tsx:127-135 | Typing in the title field changes only the title buffer |
| `NoteViewer.SetContent` | app/feature/note-viewer.tsx:140-151 | Typing in the content field changes only the content buffer |
| `NoteViewer.HandleSave` | app/feature/note-viewer.tsx:49-58 | Save never touches the buffers; a whitespace-only title or content leaves the state unchanged with an error; otherwise the editor is left with a success notice |
| `NoteViewer.SaveLeavesEditorIff` | app/feature/note-viewer.tsx:49-58 | From the editor, save leaves it exactly when the validator accepts, and otherwise changes nothing |
| `NoteViewer.HandleBack` | app/feature/note-viewer.tsx:29-43 | Back navigates immediately exactly when not editing; while editing it asks about unsaved changes; no state changes |
| `NoteViewer.ResolveUnsaved` | app/feature/note-viewer.tsx:34-38 | Discard navigates back; Save is the save handler and never navigates; Cancel changes nothing |
| `NoteViewer.OpenOptions` | app/feature/note-viewer.tsx:105-108 | The options button shows the modal and changes nothing else |
| `NoteViewer.CloseOptions` | app/feature/note-viewer.tsx:208-211 | Cancel hides the modal and changes nothing else |
| `NoteViewer.HandleShare` | app/feature/note-viewer.tsx:60-70 | Share closes the modal and shares the title buffer, a blank line and the content buffer, titled with the title buffer |
| `NoteViewer.HandleDelete` | app/feature/note-viewer.tsx:72-89 | Delete closes the modal first, then asks for confirmation naming the title buffer |
| `NoteViewer.ConfirmDelete` | app/feature/note-viewer.tsx:79-86 | Confirming reports success, then navigates back |
| `NoteViewer.HeaderLabel` | app/feature/note-viewer.tsx:97-99 | The header reads `Edit Note` exactly while editing, `View Note` otherwise |
| `PdfViewer.Open` | app/feature/pdf-viewer.tsx:16-23 | A preview exists exactly when the `title` parameter is present; present parameters are carried over, modal closed |
| `PdfViewer.Mentions` | app/feature/pdf-viewer.tsx:67 | A title mentions a keyword exactly when the keyword occurs at some position of the lower-cased title |
| `PdfViewer.Classify` | app/feature/pdf-viewer.tsx:66-203 | Each preview is chosen exactly when its keyword is in the lower-cased title and no earlier keyword is; the generic one exactly when none is |
| `PdfViewer.FirstMention` | app/feature/pdf-viewer.tsx:66-180 | Reference rule: the first keyword in the table that the title mentions; no earlier keyword is mentioned |
| `PdfViewer.ClassifyIsFirstMention` | app/feature/pdf-viewer.tsx:66-180 | The if/else chain equals the first-match rule over the keyword table (transcript, certificate, passport, license) |
| `PdfViewer.TranscriptWins` | app/feature/pdf-viewer.tsx:67 | A title mentioning `transcript` gets the transcript preview whatever text follows it |
| `PdfViewer.GenericPreview` | app/feature/pdf-viewer.tsx:180-201 | The generic template starts with its heading and the title, and contains the title, type, size and document id |
| `PdfViewer.PreviewText` | app/feature/pdf-viewer.tsx:66-203 | The preview is the fixed text of the chosen keyword, or a generic text containing the title, type, size and id |
| `PdfViewer.HandleBack` | app/feature/pdf-viewer.tsx:25-27 | Back navigates back and changes nothing |
| `PdfViewer.OpenOptions` | app/feature/pdf-viewer.tsx:214-217 | The options button shows the modal and changes nothing else |
| `PdfViewer.CloseOptions` | app/feature/pdf-viewer.tsx:267-270 | Cancel hides the modal and changes nothing else |
| `PdfViewer.ShareMessage` | app/feature/pdf-viewer.tsx:33 | The share message is the fixed `Sharing document: ` prefix followed by the title |
| `PdfViewer.HandleShare` | app/feature/pdf-viewer.tsx:29-39 | Share closes the modal, then shares the message titled with the title |
| `PdfViewer.HandleDownload` | app/feature/pdf-viewer.tsx:41-44 | Download closes the modal, then shows the placeholder notice |
| `PdfViewer.HandleDelete` | app/feature/pdf-viewer.tsx:46-63 | Delete closes the modal, then asks for confirmation naming the title |
| `PdfViewer.ConfirmDelete` | app/feature/pdf-viewer.tsx:56-59 | Confirming reports success, then navigates back |
| `PdfViewer.OptionsCloseModal` | app/feature/pdf-viewer.tsx:29-48 | Share, download and delete all leave the options modal closed |
| `Text.Lower` | app/feature/pdf-viewer.tsx:67 | Lower-casing keeps the length and maps each character by the ASCII rule |
| `Text.Contains` | app/feature/pdf-viewer.tsx:67 | `includes` succeeds exactly when the pattern occurs in the text at some position |
| `Text.IsBlank` | app/feature/note-viewer.tsx:50 | `!s.trim()` holds exactly when the string is empty or made only of whitespace |
| `Text.Trim` | app/feature/note-viewer.tsx:50 | Trimming gives the empty string exactly for all-whitespace input; otherwise the piece of the input with only whitespace before and after it, starting and ending with non-whitespace |
| `Ui.ParamOrEmpty` | app/feature/note-viewer.tsx:25-26 | `param \|\| ''`: a present parameter is returned, an absent one reads as empty |
| `Ui.ParamOrUndefined` | app/feature/pdf-viewer.tsx:183-200 | An absent parameter interpolated into the template prints as `undefined` |
| `Ui.TitledText` | app/feature/note-viewer.tsx:64 | A titled text splits back into the title, a blank line and the body |
| `Ui.DeletePrompt` | app/feature/note-viewer.tsx:76 | The confirmation message holds the name between the fixed question and closing quote |
| `Flows.NoteRouteOpensEditor` | app/feature/document-categories.tsx:240-250 | A note opened from the browser starts the editor viewing, on the note's name and body (empty when absent) |
| `Flows.FileRouteOpensPreview` | app/feature/document-categories.tsx:251-261 | Any other document opens the PDF viewer on its id, name, type and size |
| `Flows.EditNoteOpensEditor` | app/feature/document-categories.tsx:319-332 | The edit option opens the same editor state as pressing the note |
| `Flows.ShareAgreesAcrossScreens` | app/feature/document-categories.tsx:281-290 | The corrected share message (`Browser.ShareMessage`) equals what the routed-to screen shares right after opening, for notes and files; for files the as-written message agrees too |
| `Flows.BrowserShareMatchesViewer` | app/feature/document-categories.tsx:277-296 | The corrected share handler issues the same share request as the note viewer opened on the remembered note |
| `Flows.AsWrittenShareMatchesViewerWithBody` | app/feature/document-categories.tsx:277-296 | The share handler as written issues the same request as the note viewer for every remembered note that has a body |
| `Flows.AsWrittenShareDisagreesWithViewer` | app/feature/document-categories.tsx:283 | As written, the browser's share handler shares a remembered note `Todo` without a body as `Todo\n\nundefined`, while the note viewer shares it as `Todo\n\n` |
| `SampleData.SampleCounts` | app/feature/document-categories.tsx:56-182 | The sample cards count 3, 3, 3, 4, 2, and the overview shows 15 items, 11 documents and 4 notes |
| `SampleData.SampleNotesAreNoteType` | app/feature/document-categories.tsx:145-181 | In the sample, an item is in the notes category exactly when its type is `NOTE` and exactly when it has a body |
| `SampleData.TranscriptSamplePreview` | app/feature/pdf-viewer.tsx:67 | "Academic Transcript.pdf" gets the transcript preview |
| `SampleData.CertificateSamplePreview` | app/feature/pdf-viewer.tsx:105 | "Birth Certificate.pdf" gets the certificate preview |
| `SampleData.PassportSamplePreview` | app/feature/pdf-viewer.tsx:131 | "Passport Copy.pdf" gets the passport preview |
| `SampleData.LicenseSamplePreview` | app/feature/pdf-viewer.tsx:155 | "Driver License.pdf" gets the license preview |
| `SampleData.GenericSamplePreview` | app/feature/pdf-viewer.tsx:180 | "Research Paper.pdf" gets the generic preview |
| `SampleData.ThreeItemExample` | app/feature/document-categories.tsx:334-336 | Filtering academic, note, academic by `academic` counts 2 and keeps the two academic items in order |

## Left out

- Rendering: JSX layout, `StyleSheet` objects, icons and colours. Only the labels that carry a decision (count label, header labels, option label) are modelled.
- `Share.share` is modelled only as the message/title request it receives. Its asynchronous platform behaviour is not modelled, and neither is the error alert shown when it fails: the outcome depends on the platform.
- `Alert.alert` dialogs and `expo-router` navigation are effect values. The Cancel buttons of confirmation dialogs change nothing and have no function of their own.
- Date parsing and locale formatting (`toLocaleDateString`): the note viewer's creation date and the browser's item date are not modelled. The generic preview's "Last Modified" date is a string parameter. All three are locale- and clock-dependent.
- The note viewer's `noteId` and `date` parameters are only displayed and are not modelled.
- Route parameters are single strings. expo-router can also deliver arrays; that is not modelled.
- Handlers are atomic transitions. React's batched, deferred state updates are not modelled.
- The four fixed preview texts are represented by their heading lines, and the sample notes' bodies by their first lines. The full texts are sample content with no logic in them.
- `Text.Lower`: lower-cases only the ASCII letters A-Z. JavaScript's `toLowerCase` also maps non-ASCII letters, so a title with a non-ASCII keyword spelling is not covered.
- `Text.Trim`: removes a fixed whitespace set: space, tab, line feed, vertical tab, form feed, carriage return, no-break space and byte-order mark. JavaScript also trims the other Unicode space separators and the line and paragraph separators.
- `NoteViewer.OpenOptions`: no precondition on editing. The source shows the options button only while viewing, but the handler itself has no guard.
- The sample-preview lemmas cover five representative titles, not all eleven PDF titles.

## Findings

| source | as written | input that shows it | evidently intended | confidence | as-written member | corrected member |
|---|---|---|---|---|---|---|
| app/feature/document-categories.tsx:283 | a note's share message interpolates `selectedDocument.content` directly, so a note without `content` is shared as `<name>\n\nundefined` | a `notes` document with no `content` field, e.g. name `Todo`: the browser shares `Todo\n\nundefined`, and the note viewer opened on the same note shares `Todo\n\n` | read the body as `content \|\| ''`, as the routing to the note viewer does (lines 247 and 327) | medium; not executed | `Browser.HandleShareDocument` on `Browser.ShareMessageAsWritten` (counterexample `Flows.AsWrittenShareDisagreesWithViewer`) | `Browser.HandleShareDocumentCorrected` on `Browser.ShareMessage` (agreement proved in `Flows.ShareAgreesAcrossScreens` and `Flows.BrowserShareMatchesViewer`) |
