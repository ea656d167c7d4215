// The create/edit dialog: a two-field form, reset from the note being
// edited whenever the dialog opens, submitted as it stands.

module NoteDialog {
  import opened Wrappers
  import opened Text
  import opened NoteTypes

  /** The form's contents, which is also what `onSave` receives. */
  datatype FormData = FormData(title: string, content: string)

  /** The two inputs, by their `name` attribute. */
  datatype Field = TitleField | ContentField

  /** The form an opening dialog shows: the note's title (or "") and
      content when editing, two empty fields when creating. */
  function InitialForm(note: Option<Note>): (f: FormData)
    ensures note.None? ==> f == FormData("", "")
    ensures note.Some? ==> f.content == note.value.content
    ensures note.Some? && Present(note.value.title) ==> f.title == note.value.title.value
    ensures note.Some? && !Present(note.value.title) ==> f.title == ""
  {
    match note
    case None => FormData("", "")
    case Some(n) => FormData(if n.title.Some? then n.title.value else "", n.content)
  }

  /** The submit button is disabled while saving or when the content trims
      to nothing, that is, when it is all whitespace. */
  function SubmitDisabled(loading: bool, content: string): (r: bool)
    ensures r <==> loading || IsBlank(content, JavaScript)
  {
    TrimEmptyIffBlank(content, Spaces(JavaScript));
    loading || Trim(content, JavaScript) == ""
  }

  /** The dialog heading. */
  function Heading(note: Option<Note>): (r: string)
    ensures r == "Edit Note" <==> note.Some?
    ensures r == "Create New Note" <==> note.None?
  {
    if note.Some? then "Edit Note" else "Create New Note"
  }

  /** The submit button's text: the saving state wins over the mode. */
  function SubmitLabel(loading: bool, note: Option<Note>): (r: string)
    ensures r == "Saving..." <==> loading
    ensures !loading ==> (r == "Update" <==> note.Some?)
    ensures !loading ==> (r == "Create" <==> note.None?)
  {
    if loading then "Saving..." else if note.Some? then "Update" else "Create"
  }

  class NoteForm {
    var title: string
    var content: string

    constructor ()
      ensures title == "" && content == ""
    {
      title := "";
      content := "";
    }

    function Data(): FormData
      reads this
    {
      FormData(title, content)
    }

    /** The effect that runs when `note` or `open` changes. */
    method Sync(note: Option<Note>)
      modifies this
      ensures Data() == InitialForm(note)
    {
      match note {
        case None =>
          title, content := "", "";
        case Some(n) =>
          title := if n.title.Some? then n.title.value else "";
          content := n.content;
      }
    }

    /** `handleChange`: the named field takes the typed value; the other
        field keeps its value. */
    method HandleChange(field: Field, value: string)
      modifies this
      ensures field == TitleField ==> title == value && content == old(content)
      ensures field == ContentField ==> content == value && title == old(title)
    {
      match field {
        case TitleField => title := value;
        case ContentField => content := value;
      }
    }

    /** `handleSubmit`: hands the current form to `onSave` untouched. */
    method HandleSubmit() returns (saved: FormData)
      ensures saved.title == title && saved.content == content
    {
      saved := FormData(title, content);
    }

    /** `handleClose`: both fields are emptied before `onClose` runs. */
    method HandleClose()
      modifies this
      ensures Data() == InitialForm(None)
    {
      title, content := "", "";
    }
  }
}
