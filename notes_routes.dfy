// The notes API: owner-scoped create, list, read, update and delete, the
// summary and image-analysis requests with their later background
// updates, the image upload, and the text produced from the AI's reply.

module NotesRoutes {
  import opened Wrappers
  import opened Text
  import opened Http
  import opened NoteTypes

  // ---------------------------------------------------------------------
  // The notes table

  /** The `notes` table, keyed by id; ids come from an increasing counter. */
  class NoteStore {
    var rows: map<int, Note>
    var nextId: int

    ghost predicate Valid()
      reads this
    {
      ValidRows(rows, nextId)
    }

    constructor ()
      ensures Valid() && rows == map[] && nextId == 1
    {
      rows := map[];
      nextId := 1;
    }
  }

  /** Ids are the keys, positive and below the counter. */
  ghost predicate ValidRows(rows: map<int, Note>, nextId: int) {
    1 <= nextId && forall id :: id in rows ==> rows[id].id == id && 1 <= id < nextId
  }

  /** Rewriting a stored note under its own id keeps the table valid. */
  lemma SameIdValid(rows: map<int, Note>, nextId: int, id: int, n: Note)
    requires ValidRows(rows, nextId) && id in rows && n.id == id
    ensures ValidRows(rows[id := n], nextId)
  {
  }

  /** The lookup every single-note route starts with: the note with that id
      and that owner. Another user's note is not found, like a missing one. */
  function OwnedNote(rows: map<int, Note>, id: int, user: nat): (r: Option<Note>)
    ensures r.Some? <==> id in rows && rows[id].ownerId == user
    ensures r.Some? ==> r.value == rows[id]
  {
    if id in rows && rows[id].ownerId == user then Some(rows[id]) else None
  }

  const NoteNotFound := HttpError(NotFound, "Note not found")

  /** The body of a create or update request; the title may be null. */
  datatype NoteInput = NoteInput(title: Option<string>, content: string)

  /** `create_note`: a new row owned by the caller with the given title and
      content and every AI and media field empty. */
  method CreateNote(db: NoteStore, user: nat, input: NoteInput) returns (note: Note)
    requires db.Valid()
    modifies db
    ensures db.Valid()
    ensures note.ownerId == user && note.title == input.title && note.content == input.content
    ensures note.summary == None && note.imagePath == None && note.imageDescription == None && note.audioPath == None
    ensures note.id !in old(db.rows)
    ensures db.rows == old(db.rows)[note.id := note]
  {
    note := Note(db.nextId, input.title, input.content, None, None, None, None, user);
    db.rows := db.rows[note.id := note];
    db.nextId := db.nextId + 1;
  }

  /** `list_notes`: exactly the caller's notes, each once. The order is the
      database's and is left open. */
  method ListNotes(db: NoteStore, user: nat) returns (notes: seq<Note>)
    requires db.Valid()
    ensures forall i :: 0 <= i < |notes| ==> notes[i].id in db.rows && db.rows[notes[i].id] == notes[i]
    ensures forall i :: 0 <= i < |notes| ==> notes[i].ownerId == user
    ensures forall id :: id in db.rows && db.rows[id].ownerId == user ==> db.rows[id] in notes
    ensures forall i, j :: 0 <= i < j < |notes| ==> notes[i].id != notes[j].id
  {
    notes := [];
    var pending := db.rows.Keys;
    while pending != {}
      invariant pending <= db.rows.Keys
      invariant forall i :: 0 <= i < |notes| ==> notes[i].id in db.rows && db.rows[notes[i].id] == notes[i]
      invariant forall i :: 0 <= i < |notes| ==> notes[i].id !in pending && notes[i].ownerId == user
      invariant forall i, j :: 0 <= i < j < |notes| ==> notes[i].id != notes[j].id
      invariant forall id :: id in db.rows && id !in pending && db.rows[id].ownerId == user ==> db.rows[id] in notes
      decreases |pending|
    {
      NonEmptyHasMember(pending);
      var id :| id in pending;
      if db.rows[id].ownerId == user {
        notes := notes + [db.rows[id]];
      }
      pending := pending - {id};
    }
  }

  lemma NonEmptyHasMember(s: set<int>)
    requires s != {}
    ensures exists x :: x in s
  {
    if forall x :: x !in s {
      assert false;
    }
  }

  /** `get_note`. */
  method GetNote(db: NoteStore, id: int, user: nat) returns (r: Result<Note, HttpError>)
    ensures r.Success? <==> OwnedNote(db.rows, id, user).Some?
    ensures r.Success? ==> r.value == db.rows[id]
    ensures r.Failure? ==> r.error == NoteNotFound
  {
    var found := OwnedNote(db.rows, id, user);
    if found.None? {
      return Failure(NoteNotFound);
    }
    r := Success(found.value);
  }

  /** `update_note`: title (possibly to null) and content are overwritten;
      summary, media fields and owner stay; no other row changes. */
  method UpdateNote(db: NoteStore, id: int, user: nat, input: NoteInput) returns (r: Result<Note, HttpError>)
    requires db.Valid()
    modifies db`rows
    ensures db.Valid()
    ensures r.Failure? <==> OwnedNote(old(db.rows), id, user).None?
    ensures r.Failure? ==> r.error == NoteNotFound && db.rows == old(db.rows)
    ensures r.Success? ==> r.value == old(db.rows)[id].(title := input.title, content := input.content)
    ensures r.Success? ==> db.rows == old(db.rows)[id := r.value]
  {
    var found := OwnedNote(db.rows, id, user);
    if found.None? {
      return Failure(NoteNotFound);
    }
    var updated := found.value.(title := input.title, content := input.content);
    SameIdValid(db.rows, db.nextId, id, updated);
    db.rows := db.rows[id := updated];
    r := Success(updated);
  }

  /** `delete_note`: removes that row and only that row. */
  method DeleteNote(db: NoteStore, id: int, user: nat) returns (r: Result<(), HttpError>)
    requires db.Valid()
    modifies db`rows
    ensures db.Valid()
    ensures r.Failure? <==> OwnedNote(old(db.rows), id, user).None?
    ensures r.Failure? ==> r.error == NoteNotFound && db.rows == old(db.rows)
    ensures r.Success? ==> db.rows == old(db.rows) - {id}
  {
    var found := OwnedNote(db.rows, id, user);
    if found.None? {
      return Failure(NoteNotFound);
    }
    db.rows := db.rows - {id};
    r := Success(());
  }

  // ---------------------------------------------------------------------
  // AI text

  /** What the model call produced: a reply with its text (possibly
      empty), no reply at all, or an exception with its message. */
  datatype AiReply = Reply(text: string) | NoReply | AiFailure(message: string)

  const NothingToSummarize := "No content to summarize."
  const NoSummaryReply := "Unable to generate summary - no response from AI model."
  const NoAnalysisReply := "Unable to analyze image - no response from AI model."

  /** `summarize_text`. Whitespace-only text gives the fixed message and
      the reply is never consulted; otherwise a non-empty reply is trimmed,
      an empty or missing one gives the no-response message, and an
      exception is reported with its message. */
  function SummarizeText(text: string, reply: AiReply): (r: string)
    ensures IsBlank(text, Python) ==> r == NothingToSummarize
    ensures !IsBlank(text, Python) && reply.Reply? && reply.text != "" ==> r == Trim(reply.text, Python)
    ensures !IsBlank(text, Python) && (reply.NoReply? || (reply.Reply? && reply.text == "")) ==> r == NoSummaryReply
    ensures !IsBlank(text, Python) && reply.AiFailure? ==> r == "Error generating summary: " + reply.message
  {
    TrimEmptyIffBlank(text, Spaces(Python));
    if Trim(text, Python) == "" then NothingToSummarize
    else ReplyText(reply, NoSummaryReply, "Error generating summary: ")
  }

  /** `analyze_image`: the same reply handling, without the empty guard. */
  function AnalyzeImageText(reply: AiReply): (r: string)
    ensures reply.Reply? && reply.text != "" ==> r == Trim(reply.text, Python)
    ensures reply.NoReply? || (reply.Reply? && reply.text == "") ==> r == NoAnalysisReply
    ensures reply.AiFailure? ==> r == "Error analyzing image: " + reply.message
  {
    ReplyText(reply, NoAnalysisReply, "Error analyzing image: ")
  }

  /** The reply handling both prompts share: a non-empty reply is stripped
      of exactly its surrounding whitespace (as `str.strip` sees it), an
      empty or missing one gives the no-response text, and an exception
      its message after the prefix. */
  function ReplyText(reply: AiReply, noReply: string, errorPrefix: string): (r: string)
    ensures reply.Reply? && reply.text != "" ==> IsTrimOf(r, reply.text, Spaces(Python))
    ensures reply.NoReply? || (reply.Reply? && reply.text == "") ==> r == noReply
    ensures reply.AiFailure? ==> errorPrefix <= r && r[|errorPrefix|..] == reply.message
  {
    match reply
    case Reply(t) =>
      if t == "" then noReply
      else
        TrimMeetsSpec(t, Spaces(Python));
        Trim(t, Python)
    case NoReply => noReply
    case AiFailure(m) => errorPrefix + m
  }

  /** A summary from a real reply is the reply with exactly its surrounding
      whitespace removed, so stripping it again changes nothing. */
  lemma SummaryIsTrimmed(text: string, t: string)
    requires !IsBlank(text, Python) && t != ""
    ensures IsTrimOf(SummarizeText(text, Reply(t)), t, Spaces(Python))
    ensures Trim(SummarizeText(text, Reply(t)), Python) == SummarizeText(text, Reply(t))
  {
    TrimMeetsSpec(t, Spaces(Python));
    TrimIdempotent(t, Spaces(Python));
  }

  // ---------------------------------------------------------------------
  // Summaries

  /** A background job: the note it writes to and its input. */
  datatype SummaryTask = SummaryTask(noteId: int, content: string)
  datatype AnalysisTask = AnalysisTask(noteId: int, imagePath: string)

  /** `summarize_note`: answers at once with the note as it is and schedules
      the summary of its current content. */
  method SummarizeNote(db: NoteStore, id: int, user: nat) returns (r: Result<Note, HttpError>, task: Option<SummaryTask>)
    ensures r.Failure? <==> OwnedNote(db.rows, id, user).None?
    ensures r.Failure? ==> r.error == NoteNotFound && task == None
    ensures r.Success? ==> r.value == db.rows[id] && task == Some(SummaryTask(id, db.rows[id].content))
  {
    var found := OwnedNote(db.rows, id, user);
    if found.None? {
      return Failure(NoteNotFound), None;
    }
    r := Success(found.value);
    task := Some(SummaryTask(id, found.value.content));
  }

  /** `_bg_summarize`, run later in its own session: the note, if it still
      exists, gets the summary; nothing else changes. */
  method RunSummaryTask(db: NoteStore, task: SummaryTask, reply: AiReply)
    requires db.Valid()
    modifies db`rows
    ensures db.Valid()
    ensures task.noteId !in old(db.rows) ==> db.rows == old(db.rows)
    ensures task.noteId in old(db.rows) ==>
      db.rows == old(db.rows)[task.noteId := old(db.rows)[task.noteId].(summary := Some(SummarizeText(task.content, reply)))]
  {
    if task.noteId in db.rows {
      var summary := SummarizeText(task.content, reply);
      var n := db.rows[task.noteId].(summary := Some(summary));
      SameIdValid(db.rows, db.nextId, task.noteId, n);
      db.rows := db.rows[task.noteId := n];
    }
  }

  /** `_bg_analyze_image`, the same for the image description. */
  method RunAnalysisTask(db: NoteStore, task: AnalysisTask, reply: AiReply)
    requires db.Valid()
    modifies db`rows
    ensures db.Valid()
    ensures task.noteId !in old(db.rows) ==> db.rows == old(db.rows)
    ensures task.noteId in old(db.rows) ==>
      db.rows == old(db.rows)[task.noteId := old(db.rows)[task.noteId].(imageDescription := Some(AnalyzeImageText(reply)))]
  {
    if task.noteId in db.rows {
      var description := AnalyzeImageText(reply);
      var n := db.rows[task.noteId].(imageDescription := Some(description));
      SameIdValid(db.rows, db.nextId, task.noteId, n);
      db.rows := db.rows[task.noteId := n];
    }
  }

  // ---------------------------------------------------------------------
  // Images

  predicate AllDots(s: string) {
    forall i :: 0 <= i < |s| ==> s[i] == '.'
  }

  /** `os.path.splitext(name)[1]`: from the last dot of the last path
      component, unless everything before that dot in the component is
      dots (as in ".bashrc"); otherwise empty. */
  function Extension(name: string): (ext: string)
    ensures |ext| <= |name| && ext == name[|name| - |ext|..]
    ensures ext != [] ==> ext[0] == '.' && forall i :: 1 <= i < |ext| ==> ext[i] != '.' && ext[i] != '/'
  {
    var dot := LastIndexOf(name, '.');
    var sep := LastIndexOf(name, '/');
    if dot > sep && !AllDots(name[sep + 1..dot]) then name[dot..] else ""
  }

  const UploadDir := "uploads"

  /** `save_uploaded_file`'s path: `uploads/{user_id}_{uuid}{ext}`. */
  function SavedImagePath(user: nat, uuid: string, filename: string): (path: string)
    ensures UploadDir + "/" + NatToString(user) + "_" <= path
    ensures |Extension(filename)| <= |path| && Extension(filename) == path[|path| - |Extension(filename)|..]
  {
    UploadDir + "/" + NatToString(user) + "_" + uuid + Extension(filename)
  }

  /** Two uploads by one user under two different UUIDs of the same length
      never share a path, whatever the file names. */
  lemma SavedPathsDistinct(user: nat, u1: string, u2: string, f1: string, f2: string)
    requires |u1| == |u2| && u1 != u2
    ensures SavedImagePath(user, u1, f1) != SavedImagePath(user, u2, f2)
  {
    var prefix := UploadDir + "/" + NatToString(user) + "_";
    var p1, p2 := SavedImagePath(user, u1, f1), SavedImagePath(user, u2, f2);
    assert p1[|prefix|..|prefix| + |u1|] == u1;
    assert p2[|prefix|..|prefix| + |u2|] == u2;
  }

  /** The multipart file as the route sees it. */
  datatype Upload = Upload(filename: string, contentType: string)

  /** Writing the file: it succeeds or fails with the exception's text. */
  datatype SaveOutcome = Saved | SaveFailed(message: string)

  /** `upload_image_to_note`. The content type is checked before anything
      else, then ownership, then the file is written; only then does the
      note record the path, and the analysis of that path is scheduled. */
  method UploadImage(db: NoteStore, id: int, user: nat, file: Upload, uuid: string, save: SaveOutcome)
    returns (r: Result<Note, HttpError>, task: Option<AnalysisTask>)
    requires db.Valid()
    modifies db`rows
    ensures db.Valid()
    ensures !("image/" <= file.contentType) ==> r == Failure(HttpError(BadRequest, "File must be an image"))
    ensures "image/" <= file.contentType && OwnedNote(old(db.rows), id, user).None? ==> r == Failure(NoteNotFound)
    ensures "image/" <= file.contentType && OwnedNote(old(db.rows), id, user).Some? && save.SaveFailed? ==>
      r == Failure(HttpError(ServerError, "Failed to save file: " + save.message))
    ensures r.Failure? ==> db.rows == old(db.rows) && task == None
    ensures r.Success? <==> "image/" <= file.contentType && OwnedNote(old(db.rows), id, user).Some? && save.Saved?
    ensures r.Success? ==>
      r.value == old(db.rows)[id].(imagePath := Some(SavedImagePath(user, uuid, file.filename)))
      && db.rows == old(db.rows)[id := r.value]
      && task == Some(AnalysisTask(id, SavedImagePath(user, uuid, file.filename)))
  {
    if !("image/" <= file.contentType) {
      return Failure(HttpError(BadRequest, "File must be an image")), None;
    }
    var found := OwnedNote(db.rows, id, user);
    if found.None? {
      return Failure(NoteNotFound), None;
    }
    if save.SaveFailed? {
      return Failure(HttpError(ServerError, "Failed to save file: " + save.message)), None;
    }
    var path := SavedImagePath(user, uuid, file.filename);
    var updated := found.value.(imagePath := Some(path));
    SameIdValid(db.rows, db.nextId, id, updated);
    db.rows := db.rows[id := updated];
    r := Success(updated);
    task := Some(AnalysisTask(id, path));
  }

  /** `analyze_note_image`: 404 for no owned note, 400 when it has no image
      (none or empty); otherwise the note is returned as is and its image
      is queued for analysis. */
  method AnalyzeNoteImage(db: NoteStore, id: int, user: nat) returns (r: Result<Note, HttpError>, task: Option<AnalysisTask>)
    ensures OwnedNote(db.rows, id, user).None? ==> r == Failure(NoteNotFound)
    ensures OwnedNote(db.rows, id, user).Some? && !HasImage(db.rows[id]) ==>
      r == Failure(HttpError(BadRequest, "Note has no image to analyze"))
    ensures r.Failure? ==> task == None
    ensures r.Success? <==> OwnedNote(db.rows, id, user).Some? && HasImage(db.rows[id])
    ensures r.Success? ==> r.value == db.rows[id] && task == Some(AnalysisTask(id, db.rows[id].imagePath.value))
  {
    var found := OwnedNote(db.rows, id, user);
    if found.None? {
      return Failure(NoteNotFound), None;
    }
    if !HasImage(found.value) {
      return Failure(HttpError(BadRequest, "Note has no image to analyze")), None;
    }
    r := Success(found.value);
    task := Some(AnalysisTask(id, found.value.imagePath.value));
  }
}
