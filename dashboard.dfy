// The dashboard page: the note list it holds, the filter it shows, and the
// optimistic list edits its handlers make after each API call.

module Dashboard {
  import opened Wrappers
  import opened Text
  import opened Http
  import opened NoteTypes

  /** The `filterType` property of the page. */
  datatype FilterType = All | Voice | Favorites

  datatype Severity = SuccessSeverity | ErrorSeverity | InfoSeverity

  datatype Snackbar = Snackbar(open: bool, message: string, severity: Severity)

  // ---------------------------------------------------------------------
  // The filter effect

  /** The type filter: voice pages keep only notes with an audio file;
      "all" and "favorites" keep everything. */
  function TypeFiltered(notes: seq<Note>, filterType: FilterType): (r: seq<Note>)
    ensures |r| <= |notes|
    ensures forall n :: n in r <==> n in notes && (filterType == Voice ==> HasAudio(n))
  {
    if filterType == Voice then Select(notes, HasAudio) else notes
  }

  /** `field?.toLowerCase().includes(q)` on an optional field: the field is
      there and the query occurs in it. */
  function FieldMatches(field: Option<string>, lowerQuery: string): (r: bool)
    ensures r <==> field.Some? && Contains(Lower(field.value), lowerQuery)
  {
    if field.None? then false
    else
      IncludesIffOccurs(Lower(field.value), lowerQuery);
      Includes(Lower(field.value), lowerQuery)
  }

  /** A note matches the query when the lower-cased, untrimmed query occurs
      in its lower-cased title, content, summary or image description. */
  function MatchesQuery(query: string, n: Note): (r: bool)
    ensures r <==> (n.title.Some? && Contains(Lower(n.title.value), Lower(query)))
                   || Contains(Lower(n.content), Lower(query))
                   || (n.summary.Some? && Contains(Lower(n.summary.value), Lower(query)))
                   || (n.imageDescription.Some? && Contains(Lower(n.imageDescription.value), Lower(query)))
  {
    var q := Lower(query);
    IncludesIffOccurs(Lower(n.content), q);
    FieldMatches(n.title, q) || Includes(Lower(n.content), q)
    || FieldMatches(n.summary, q) || FieldMatches(n.imageDescription, q)
  }

  /** The notes the page shows: some of the notes, each passing the type
      filter. */
  function VisibleNotes(notes: seq<Note>, filterType: FilterType, query: string): (r: seq<Note>)
    ensures |r| <= |notes|
    ensures forall n :: n in r ==> n in notes && (filterType == Voice ==> HasAudio(n))
  {
    var typed := TypeFiltered(notes, filterType);
    if Trim(query, JavaScript) != "" then Select(typed, (n: Note) => MatchesQuery(query, n)) else typed
  }

  /** What the filter keeps: a note is shown exactly when it passes the type
      filter and, unless the query is blank, matches the query. */
  lemma VisibleNotesMembership(notes: seq<Note>, filterType: FilterType, query: string, n: Note)
    ensures n in VisibleNotes(notes, filterType, query)
      <==> n in notes && (filterType == Voice ==> HasAudio(n))
           && (!IsBlank(query, JavaScript) ==> MatchesQuery(query, n))
  {
    TrimEmptyIffBlank(query, Spaces(JavaScript));
  }

  /** A blank query leaves the type-filtered list as it is. */
  lemma BlankQueryKeepsList(notes: seq<Note>, filterType: FilterType, query: string)
    requires IsBlank(query, JavaScript)
    ensures VisibleNotes(notes, filterType, query) == TypeFiltered(notes, filterType)
  {
    TrimEmptyIffBlank(query, Spaces(JavaScript));
  }

  /** The "all" and "favorites" pages without a query show every note. */
  lemma NoFilterShowsAll(notes: seq<Note>, filterType: FilterType, query: string)
    requires filterType != Voice && IsBlank(query, JavaScript)
    ensures VisibleNotes(notes, filterType, query) == notes
  {
    TrimEmptyIffBlank(query, Spaces(JavaScript));
  }

  /** The shown list is the note list with some notes left out, in order. */
  lemma VisibleIsSubsequence(notes: seq<Note>, filterType: FilterType, query: string)
    ensures IsSubsequence(VisibleNotes(notes, filterType, query), notes)
  {
    var typed := TypeFiltered(notes, filterType);
    if filterType == Voice {
      SelectIsSubsequence(notes, HasAudio);
    } else {
      SubsequenceReflexive(notes);
    }
    if Trim(query, JavaScript) != "" {
      var f := (n: Note) => MatchesQuery(query, n);
      SelectIsSubsequence(typed, f);
      SubsequenceTransitive(Select(typed, f), typed, notes);
    }
  }

  // ---------------------------------------------------------------------
  // The list edits

  /** `notes.map(note => note.id === id ? updated : note)`. */
  function ReplaceById(notes: seq<Note>, id: int, updated: Note): (r: seq<Note>)
    ensures |r| == |notes|
  {
    seq(|notes|, i requires 0 <= i < |notes| => if notes[i].id == id then updated else notes[i])
  }

  /** `notes.filter(note => note.id !== id)`. */
  function RemoveById(notes: seq<Note>, id: int): (r: seq<Note>)
    ensures |r| <= |notes|
    ensures forall n :: n in r ==> n.id != id
  {
    Select(notes, (n: Note) => n.id != id)
  }

  /** After a replacement a note is in the list exactly when it was there
      under another id, or it is the server's note and the id was in the
      list. A reply for an id the page does not hold changes nothing. */
  lemma ReplaceByIdMembership(notes: seq<Note>, id: int, updated: Note, n: Note)
    ensures n in ReplaceById(notes, id, updated)
      <==> (n in notes && n.id != id) || (n == updated && exists i :: 0 <= i < |notes| && notes[i].id == id)
    ensures (forall i :: 0 <= i < |notes| ==> notes[i].id != id) ==> ReplaceById(notes, id, updated) == notes
  {
    var r := ReplaceById(notes, id, updated);
    if n in r {
      var i :| 0 <= i < |r| && r[i] == n;
      if notes[i].id == id {
        assert n == updated;
      } else {
        assert notes[i] == n;
      }
    }
    if n in notes && n.id != id {
      var i :| 0 <= i < |notes| && notes[i] == n;
      assert r[i] == n;
    }
    if n == updated && exists i :: 0 <= i < |notes| && notes[i].id == id {
      var i :| 0 <= i < |notes| && notes[i].id == id;
      assert r[i] == n;
    }
  }

  /** Applying the same server answer twice changes nothing more. */
  lemma ReplaceByIdIdempotent(notes: seq<Note>, updated: Note)
    ensures ReplaceById(ReplaceById(notes, updated.id, updated), updated.id, updated)
         == ReplaceById(notes, updated.id, updated)
  {
  }

  /** After a delete no note carries the id, and every other note remains. */
  lemma RemoveByIdSpec(notes: seq<Note>, id: int, n: Note)
    ensures n in RemoveById(notes, id) <==> n in notes && n.id != id
    ensures IsSubsequence(RemoveById(notes, id), notes)
  {
    SelectIsSubsequence(notes, (m: Note) => m.id != id);
  }

  /** Deleting a note that was edited first removes the same notes as
      deleting it straight away. */
  lemma {:induction false} RemoveAfterReplace(notes: seq<Note>, updated: Note)
    ensures RemoveById(ReplaceById(notes, updated.id, updated), updated.id)
         == RemoveById(notes, updated.id)
    decreases |notes|
  {
    var id := updated.id;
    if notes != [] {
      RemoveAfterReplace(notes[1..], updated);
      assert ReplaceById(notes, id, updated)[1..] == ReplaceById(notes[1..], id, updated);
    }
  }

  /** Deleting a freshly created note restores the list before the create. */
  lemma RemoveAfterPrepend(notes: seq<Note>, created: Note)
    requires forall i :: 0 <= i < |notes| ==> notes[i].id != created.id
    ensures RemoveById([created] + notes, created.id) == notes
  {
    assert ([created] + notes)[1..] == notes;
    SelectKeepAll(notes, (m: Note) => m.id != created.id);
  }

  // ---------------------------------------------------------------------
  // Header figures

  /** The chip under the search box: the count read back from its leading
      digits, then " note" for one note and " notes" otherwise. */
  function ChipLabel(count: nat): (chip: string)
    ensures count == 1 ==> chip == "1 note"
    ensures count != 1 ==> |chip| == |NatToString(count)| + 6 && chip[|chip| - 6..] == " notes"
    ensures var d := |NatToString(count)|;
      d < |chip| && AllDigits(chip[..d]) && ParseDigits(chip[..d]) == count && chip[d] == ' '
  {
    NatToStringRoundTrip(count);
    var digits := NatToString(count);
    var chip := digits + " note" + (if count != 1 then "s" else "");
    assert chip[..|digits|] == digits;
    chip
  }

  /** The heading over an empty list: "No notes found" exactly while a
      query is typed, "No notes yet" otherwise. */
  function EmptyListHeading(query: string): (h: string)
    ensures h == "No notes found" <==> query != ""
    ensures h == "No notes yet" <==> query == ""
  {
    if query != "" then "No notes found" else "No notes yet"
  }

  /** "No notes yet" over an empty "all" or "favorites" page is truthful:
      the page holds no notes at all. */
  lemma NoNotesYetIsTruthful(notes: seq<Note>, filterType: FilterType, query: string)
    requires filterType != Voice
    requires VisibleNotes(notes, filterType, query) == [] && EmptyListHeading(query) == "No notes yet"
    ensures notes == []
  {
    NoFilterShowsAll(notes, filterType, query);
  }

  // ---------------------------------------------------------------------
  // The page state and its handlers

  class DashboardPage {
    const filterType: FilterType
    var notes: seq<Note>
    var searchQuery: string
    var loading: bool
    var dialogOpen: bool
    var editingNote: Option<Note>
    var dialogLoading: bool
    var snackbar: Snackbar

    constructor (filterType: FilterType)
      ensures this.filterType == filterType
      ensures notes == [] && searchQuery == "" && loading
      ensures !dialogOpen && editingNote == None && !dialogLoading && !snackbar.open
    {
      this.filterType := filterType;
      notes := [];
      searchQuery := "";
      loading := true;
      dialogOpen := false;
      editingNote := None;
      dialogLoading := false;
      snackbar := Snackbar(false, "", SuccessSeverity);
    }

    /** The `filteredNotes` state, which the filter effect keeps in step
        with `notes`, `searchQuery` and `filterType`. */
    function FilteredNotes(): seq<Note>
      reads this
    {
      VisibleNotes(notes, filterType, searchQuery)
    }

    /** The empty-state heading: shown once loading is over and no note
        passes the filter. */
    function EmptyState(): (h: Option<string>)
      reads this
      ensures h.Some? <==> !loading && FilteredNotes() == []
      ensures h.Some? ==> h.value == EmptyListHeading(searchQuery)
    {
      if !loading && FilteredNotes() == [] then Some(EmptyListHeading(searchQuery)) else None
    }

    /** The chip beside the search box counts the filtered notes, not all
        of them. */
    function Chip(): (c: string)
      reads this
      ensures c == ChipLabel(|FilteredNotes()|)
      ensures |FilteredNotes()| == 1 ==> c == "1 note"
    {
      ChipLabel(|FilteredNotes()|)
    }

    function VoiceNotesCount(): (r: nat)
      reads this
      ensures r <= |notes|
    {
      Count(notes, HasAudio)
    }

    function SummarizedCount(): (r: nat)
      reads this
      ensures r <= |notes|
    {
      Count(notes, HasSummary)
    }

    method ShowSnackbar(message: string, severity: Severity)
      modifies this`snackbar
      ensures snackbar == Snackbar(true, message, severity)
    {
      snackbar := Snackbar(true, message, severity);
    }

    /** The first load: the list from the server, or an error message. */
    method FetchNotes(response: Response<seq<Note>>)
      modifies this`notes, this`loading, this`snackbar
      ensures !loading
      ensures notes == if response.Ok? then response.value else old(notes)
      ensures response.Err? ==> snackbar == Snackbar(true, "Failed to fetch notes", ErrorSeverity)
      ensures response.Ok? ==> snackbar == old(snackbar)
    {
      if response.Ok? {
        notes := response.value;
      } else {
        ShowSnackbar("Failed to fetch notes", ErrorSeverity);
      }
      loading := false;
    }

    method SetSearchQuery(query: string)
      modifies this`searchQuery
      ensures searchQuery == query
    {
      searchQuery := query;
    }

    method HandleCreateNote()
      modifies this`editingNote, this`dialogOpen
      ensures editingNote == None && dialogOpen
    {
      editingNote := None;
      dialogOpen := true;
    }

    method HandleEditNote(note: Note)
      modifies this`editingNote, this`dialogOpen
      ensures editingNote == Some(note) && dialogOpen
    {
      editingNote := Some(note);
      dialogOpen := true;
    }

    /** Save from the dialog: an update replaces the edited note, a create
        puts the new note first; only success closes the dialog. */
    method HandleSaveNote(response: Response<Note>)
      modifies this`notes, this`dialogOpen, this`dialogLoading, this`snackbar
      ensures !dialogLoading
      ensures response.Ok? ==> !dialogOpen
      ensures response.Ok? ==> notes == (if old(editingNote).Some?
        then ReplaceById(old(notes), old(editingNote).value.id, response.value)
        else [response.value] + old(notes))
      ensures response.Ok? ==> snackbar == Snackbar(true,
        if old(editingNote).Some? then "Note updated successfully" else "Note created successfully",
        SuccessSeverity)
      ensures response.Err? ==> notes == old(notes) && dialogOpen == old(dialogOpen)
      ensures response.Err? ==> snackbar == Snackbar(true, "Failed to save note", ErrorSeverity)
    {
      dialogLoading := true;
      if response.Ok? {
        if editingNote.Some? {
          notes := ReplaceById(notes, editingNote.value.id, response.value);
          ShowSnackbar("Note updated successfully", SuccessSeverity);
        } else {
          notes := [response.value] + notes;
          ShowSnackbar("Note created successfully", SuccessSeverity);
        }
        dialogOpen := false;
      } else {
        ShowSnackbar("Failed to save note", ErrorSeverity);
      }
      dialogLoading := false;
    }

    /** Delete after the confirmation prompt. */
    method HandleDeleteNote(id: int, confirmed: bool, response: Response<()>)
      modifies this`notes, this`snackbar
      ensures notes == if confirmed && response.Ok? then RemoveById(old(notes), id) else old(notes)
      ensures !confirmed ==> snackbar == old(snackbar)
      ensures confirmed ==> snackbar == if response.Ok?
        then Snackbar(true, "Note deleted successfully", SuccessSeverity)
        else Snackbar(true, "Failed to delete note", ErrorSeverity)
    {
      if confirmed {
        if response.Ok? {
          notes := RemoveById(notes, id);
          ShowSnackbar("Note deleted successfully", SuccessSeverity);
        } else {
          ShowSnackbar("Failed to delete note", ErrorSeverity);
        }
      }
    }

    /** The shape shared by the summarize, image, analyze, audio and
        transcribe handlers: announce, then replace the note on success. */
    method ApplyNoteUpdate(id: int, response: Response<Note>, pending: string, done: string, failed: string)
      modifies this`notes, this`snackbar
      ensures notes == if response.Ok? then ReplaceById(old(notes), id, response.value) else old(notes)
      ensures snackbar == if response.Ok? then Snackbar(true, done, SuccessSeverity)
                          else Snackbar(true, failed, ErrorSeverity)
    {
      ShowSnackbar(pending, InfoSeverity);
      if response.Ok? {
        notes := ReplaceById(notes, id, response.value);
        ShowSnackbar(done, SuccessSeverity);
      } else {
        ShowSnackbar(failed, ErrorSeverity);
      }
    }

    method HandleSummarizeNote(id: int, response: Response<Note>)
      modifies this`notes, this`snackbar
      ensures notes == if response.Ok? then ReplaceById(old(notes), id, response.value) else old(notes)
      ensures snackbar == if response.Ok? then Snackbar(true, "Summary generated successfully", SuccessSeverity)
                          else Snackbar(true, "Failed to generate summary", ErrorSeverity)
    {
      ApplyNoteUpdate(id, response, "AI is generating summary...",
        "Summary generated successfully", "Failed to generate summary");
    }

    method HandleUploadImage(id: int, response: Response<Note>)
      modifies this`notes, this`snackbar
      ensures notes == if response.Ok? then ReplaceById(old(notes), id, response.value) else old(notes)
      ensures snackbar == if response.Ok? then Snackbar(true, "Image uploaded successfully! AI analysis in progress...", SuccessSeverity)
                          else Snackbar(true, "Failed to upload image", ErrorSeverity)
    {
      ApplyNoteUpdate(id, response, "Uploading image...",
        "Image uploaded successfully! AI analysis in progress...", "Failed to upload image");
    }

    method HandleAnalyzeImage(id: int, response: Response<Note>)
      modifies this`notes, this`snackbar
      ensures notes == if response.Ok? then ReplaceById(old(notes), id, response.value) else old(notes)
      ensures snackbar == if response.Ok? then Snackbar(true, "Image analysis completed successfully", SuccessSeverity)
                          else Snackbar(true, "Failed to analyze image", ErrorSeverity)
    {
      ApplyNoteUpdate(id, response, "AI is analyzing image...",
        "Image analysis completed successfully", "Failed to analyze image");
    }

    method HandleUploadAudio(id: int, response: Response<Note>)
      modifies this`notes, this`snackbar
      ensures notes == if response.Ok? then ReplaceById(old(notes), id, response.value) else old(notes)
      ensures snackbar == if response.Ok? then Snackbar(true, "Audio uploaded successfully!", SuccessSeverity)
                          else Snackbar(true, "Failed to upload audio", ErrorSeverity)
    {
      ApplyNoteUpdate(id, response, "Uploading audio...",
        "Audio uploaded successfully!", "Failed to upload audio");
    }

    method HandleTranscribeAudio(id: int, response: Response<Note>)
      modifies this`notes, this`snackbar
      ensures notes == if response.Ok? then ReplaceById(old(notes), id, response.value) else old(notes)
      ensures snackbar == if response.Ok? then Snackbar(true, "Audio transcribed successfully", SuccessSeverity)
                          else Snackbar(true, "Failed to transcribe audio", ErrorSeverity)
    {
      ApplyNoteUpdate(id, response, "Transcribing audio...",
        "Audio transcribed successfully", "Failed to transcribe audio");
    }

    /** The dialog's close callback. */
    method CloseDialog()
      modifies this`dialogOpen
      ensures !dialogOpen
    {
      dialogOpen := false;
    }

    method CloseSnackbar()
      modifies this`snackbar
      ensures snackbar == old(snackbar).(open := false)
    {
      snackbar := snackbar.(open := false);
    }
  }
}
