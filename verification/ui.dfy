/**
 What a screen hands to the platform instead of performing it: navigation,
 alert and confirmation dialogs, and the share sheet. A screen handler is a
 pure function from the screen's state to its next state plus these effects,
 in the order the handler issues them.
 */
module Ui {

  datatype Effect =
    /** `router.back()` */
    | NavigateBack
    /** `router.push({ pathname, params })` */
    | Push(path: string, params: map<string, string>)
    /** `Alert.alert(title, message)` with a single OK button */
    | ShowAlert(title: string, message: string)
    /** A Cancel / Delete confirmation dialog; its Delete button runs the screen's confirm handler */
    | AskDelete(title: string, message: string)
    /** The Discard / Save / Cancel dialog shown when leaving the note editor */
    | AskUnsavedChanges
    /** `Share.share({ message, title })` */
    | ShareSheet(message: string, title: string)

  /** The two screens the category browser opens. */
  const NoteViewerPath: string := "/feature/note-viewer"
  const PdfViewerPath: string := "/feature/pdf-viewer"

  datatype Step<S> = Step(state: S, effects: seq<Effect>)

  /** A route parameter read as `param || ''`: absent or empty both give the empty string. */
  function ParamOrEmpty(params: map<string, string>, key: string): (r: string)
    ensures key in params ==> r == params[key]
    ensures key !in params ==> r == ""
  {
    if key in params then params[key] else ""
  }

  /** A route parameter interpolated into a template literal: an absent one prints as `undefined`. */
  function ParamOrUndefined(params: map<string, string>, key: string): (r: string)
    ensures key in params ==> r == params[key]
    ensures key !in params ==> r == "undefined"
  {
    if key in params then params[key] else "undefined"
  }

  /** A titled text as the share sheets format it: the title, a blank line, then the body. */
  function TitledText(title: string, body: string): (r: string)
    ensures |r| == |title| + 2 + |body|
    ensures r[..|title|] == title && r[|title|..|title| + 2] == "\n\n" && r[|title| + 2..] == body
  {
    title + "\n\n" + body
  }

  /** The message of a delete confirmation: `Are you sure you want to delete "<name>"?`. */
  function DeletePrompt(name: string): (r: string)
    ensures |r| == |name| + 35 && r[33..|r| - 2] == name
    ensures r[..33] == "Are you sure you want to delete \"" && r[|r| - 2..] == "\"?"
  {
    "Are you sure you want to delete \"" + name + "\"?"
  }
}
