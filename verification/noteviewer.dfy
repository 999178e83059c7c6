/**
 The note viewer: shows a note and switches into an editor. Saving is guarded
 by a validator that rejects a title or content that is empty after trimming;
 leaving while editing asks whether to discard, save or stay.
 */
module NoteViewer {
  import opened Text
  import opened Ui

  datatype NoteState = NoteState(
    isEditing: bool,
    editedTitle: string,
    editedContent: string,
    showOptionsModal: bool)

  /** The screen opened with route parameters: buffers are `title || ''` and `content || ''`, viewing. */
  function Init(params: map<string, string>): (r: NoteState)
    ensures !r.isEditing && !r.showOptionsModal
    ensures r.editedTitle == (if "title" in params then params["title"] else "")
    ensures r.editedContent == (if "content" in params then params["content"] else "")
  {
    NoteState(false, ParamOrEmpty(params, "title"), ParamOrEmpty(params, "content"), false)
  }

  /**
   The save validator: both buffers must be non-blank after trimming. It fails
   exactly when one of the buffers is made only of whitespace (or is empty).
   */
  predicate CanSave(s: NoteState)
    ensures !CanSave(s) <==> AllWhitespace(s.editedTitle) || AllWhitespace(s.editedContent)
  {
    !IsBlank(s.editedTitle) && !IsBlank(s.editedContent)
  }

  /** `handleEdit`: enter the editor; the buffers are kept. */
  function HandleEdit(s: NoteState): (r: NoteState)
    ensures r.isEditing
    ensures r.(isEditing := s.isEditing) == s
  {
    s.(isEditing := true)
  }

  /** Entering the editor twice is entering it once. */
  lemma HandleEditIdempotent(s: NoteState)
    ensures HandleEdit(HandleEdit(s)) == HandleEdit(s)
  {
  }

  /** Typing into the title field (`onChangeText`); only the title buffer changes. */
  function SetTitle(s: NoteState, text: string): (r: NoteState)
    ensures r.editedTitle == text
    ensures r.(editedTitle := s.editedTitle) == s
  {
    s.(editedTitle := text)
  }

  /** Typing into the content field; only the content buffer changes. */
  function SetContent(s: NoteState, text: string): (r: NoteState)
    ensures r.editedContent == text
    ensures r.(editedContent := s.editedContent) == s
  {
    s.(editedContent := text)
  }

  const SaveRejected: Effect := ShowAlert("Error", "Please enter both title and content")
  const SaveAccepted: Effect := ShowAlert("Success", "Note saved successfully!")

  /**
   `handleSave`: a blank title or content leaves everything as it was and shows an
   error; otherwise the editor is left. The buffers are never touched.
   */
  function HandleSave(s: NoteState): (r: Step<NoteState>)
    ensures r.state.editedTitle == s.editedTitle && r.state.editedContent == s.editedContent
    ensures r.state.showOptionsModal == s.showOptionsModal
    ensures (AllWhitespace(s.editedTitle) || AllWhitespace(s.editedContent)) ==>
      r.state == s && r.effects == [SaveRejected]
    ensures !AllWhitespace(s.editedTitle) && !AllWhitespace(s.editedContent) ==>
      !r.state.isEditing && r.effects == [SaveAccepted]
  {
    if !CanSave(s) then Step(s, [SaveRejected])
    else Step(s.(isEditing := false), [SaveAccepted])
  }

  /** Saving leaves the editor exactly when the validator accepts (from the editor). */
  lemma SaveLeavesEditorIff(s: NoteState)
    requires s.isEditing
    ensures !HandleSave(s).state.isEditing <==> CanSave(s)
    ensures HandleSave(s).state.isEditing ==> HandleSave(s).state == s
  {
  }

  /** `handleBack`: while editing ask about the unsaved changes; otherwise go back at once. */
  function HandleBack(s: NoteState): (r: Step<NoteState>)
    ensures r.state == s
    ensures s.isEditing ==> r.effects == [AskUnsavedChanges]
    ensures !s.isEditing ==> r.effects == [NavigateBack]
    ensures NavigateBack in r.effects <==> !s.isEditing
  {
    if s.isEditing then Step(s, [AskUnsavedChanges]) else Step(s, [NavigateBack])
  }

  /** The buttons of the unsaved-changes dialog. */
  datatype UnsavedChoice = Discard | Save | Cancel

  /** Resolving the dialog: Discard goes back, Save runs the save handler, Cancel does nothing. */
  function ResolveUnsaved(s: NoteState, choice: UnsavedChoice): (r: Step<NoteState>)
    ensures choice == Discard ==> r == Step(s, [NavigateBack])
    ensures choice == Save ==> r == HandleSave(s) && NavigateBack !in r.effects
    ensures choice == Cancel ==> r == Step(s, [])
  {
    match choice
    case Discard => Step(s, [NavigateBack])
    case Save => HandleSave(s)
    case Cancel => Step(s, [])
  }

  /** The options modal is opened from the header button shown while viewing. */
  function OpenOptions(s: NoteState): (r: NoteState)
    ensures r.showOptionsModal
    ensures r.(showOptionsModal := s.showOptionsModal) == s
  {
    s.(showOptionsModal := true)
  }

  /** The modal's Cancel button and its request-close. */
  function CloseOptions(s: NoteState): (r: NoteState)
    ensures !r.showOptionsModal
    ensures r.(showOptionsModal := s.showOptionsModal) == s
  {
    s.(showOptionsModal := false)
  }

  /** `handleShare`: close the modal and share the buffers as a titled text. */
  function HandleShare(s: NoteState): (r: Step<NoteState>)
    ensures r.state == CloseOptions(s)
    ensures |r.effects| == 1 && r.effects[0].ShareSheet?
    ensures r.effects[0].title == s.editedTitle
    ensures r.effects[0].message == TitledText(s.editedTitle, s.editedContent)
  {
    Step(CloseOptions(s), [ShareSheet(TitledText(s.editedTitle, s.editedContent), s.editedTitle)])
  }

  /** `handleDelete`: close the modal, then ask for confirmation naming the title buffer. */
  function HandleDelete(s: NoteState): (r: Step<NoteState>)
    ensures r.state == CloseOptions(s)
    ensures r.effects == [AskDelete("Delete Note", DeletePrompt(s.editedTitle))]
  {
    Step(CloseOptions(s), [AskDelete("Delete Note", DeletePrompt(s.editedTitle))])
  }

  /** The confirmation's Delete button: report success and go back; no state changes. */
  function ConfirmDelete(s: NoteState): (r: Step<NoteState>)
    ensures r.state == s
    ensures r.effects == [ShowAlert("Success", "Note deleted successfully!"), NavigateBack]
  {
    Step(s, [ShowAlert("Success", "Note deleted successfully!"), NavigateBack])
  }

  /** The header label. */
  function HeaderLabel(s: NoteState): (r: string)
    ensures r == "Edit Note" <==> s.isEditing
    ensures r == "View Note" <==> !s.isEditing
  {
    if s.isEditing then "Edit Note" else "View Note"
  }
}
