# AI Notes manager — a verified model of its core

AI Notes manager is a note-taking web application. A React client keeps the
note list, a dashboard with search and type filters, note cards, a
statistics page, a voice recorder, a note dialog, a profile page and a
light/dark theme. A FastAPI server stores users and notes in SQLite. It
asks a generative model for summaries and image descriptions, and it
stores uploaded images and avatars on disk. Three one-off scripts add
missing columns to an existing database file.

This project models that core in Dafny and proves what each part
promises.

- `common.dfy` holds the shared building blocks:
  - `Option` and `Result`;
  - trim over a set of whitespace characters, with the exact sets of
    JavaScript's `trim` and Python's `str.strip` (`Spaces`), and its
    reference meaning;
  - lower-case and substring search;
  - decimal rendering and its inverse;
  - `PadStart` and `LastIndexOf`;
  - the HTTP error shape (`Http`).
- `notes_model.dfy`: the note record, `filter` as `Select`, and
  order-preserving subsequences.
- `dashboard.dfy`: the filter effect, the optimistic list edits after each
  API call, the header figures, and the page state as a class.
- `note_card.dfy`: truncation, "See More", the title fallback, the menu,
  and the card state.
- `statistics.dfy`: counts, `Math.round`-style averages and percentages,
  the character total, the longest note, and the shown panels.
- `audio_recorder.dfy`: the `m:ss` clock with a parser that inverts it, the
  visible buttons, and the recorder as a class driven by browser events.
- `note_dialog.dfy`: the dialog form and its handlers.
- `profile_page.dfy`: the profile form, the avatar checks, the handlers,
  and the avatar URL.
- `theme.dfy`: the initial mode, the toggle, the palette, persistence, and
  the `useTheme` guard.
- `notes_routes.dfy`: the owner-scoped notes table and every notes route.
  This includes the background summary and analysis jobs, the upload path
  scheme, and the text derived from the AI's reply.
- `users.dfy`: the users table, register and login, and the profile routes.
  This includes the avatar path scheme and the centre-crop arithmetic.
- `migrations.dfy`: the part of SQLite and of Python's `sqlite3` module the
  scripts use, and the three migrations.
  - Schema statements run in autocommit mode.
  - A data-changing statement opens a transaction.
  - Any single statement may raise.

Things the program receives from outside become parameters, so every
outcome of an operation is covered by its contract:

- server replies seen by the client (`Http.Response`);
- the user's answer to `window.confirm`;
- the microphone permission;
- the AI's reply;
- the outcome of writing or processing a file;
- the generated UUID;
- the failing statement of a migration;
- the password hash, password check and token signer.

## Model

| member | source | states |
|---|---|---|
| NoteTypes.Select | Frontend/src/pages/Dashboard.tsx:51 | `filter` keeps exactly the elements that are in the list and satisfy the predicate, and never lengthens it |
| NoteTypes.SelectIsSubsequence | Frontend/src/pages/Dashboard.tsx:47-67 | a filtered list is an order-preserving subsequence of the original |
| NoteTypes.SelectKeepAll | Frontend/src/pages/Dashboard.tsx:50-55 | a filter that keeps every element returns the list itself |
| NoteTypes.SelectIdempotent | Frontend/src/pages/Dashboard.tsx:59-64 | filtering twice with one predicate equals filtering once |
| NoteTypes.SubsequenceTransitive | Frontend/src/pages/Dashboard.tsx:47-67 | a subsequence of a subsequence is a subsequence, so chaining the two filters keeps order |
| NoteTypes.Count | Frontend/src/pages/Dashboard.tsx:201-202 | `filter(...).length` is at most the list length |
| Dashboard.TypeFiltered | Frontend/src/pages/Dashboard.tsx:50-55 | a note passes the type filter iff it is in the list and, on the voice page, has an audio_path |
| Dashboard.FieldMatches | Frontend/src/pages/Dashboard.tsx:60 | `field?.toLowerCase().includes(q)` holds iff the field is present and q occurs in its lower-cased text |
| Dashboard.MatchesQuery | Frontend/src/pages/Dashboard.tsx:59-64 | a note matches iff the lower-cased query occurs in its lower-cased title, content, summary or image_description, the optional ones only when present |
| Dashboard.VisibleNotes | Frontend/src/pages/Dashboard.tsx:45-68 | the shown list is no longer than notes, and each shown note is a note that passes the type filter |
| Dashboard.VisibleNotesMembership | Frontend/src/pages/Dashboard.tsx:45-68 | a note is shown iff it is in the list, has a present non-empty audio_path on the voice page, and, unless the query is blank (JavaScript whitespace only), the lower-cased untrimmed query occurs in its lower-cased title, content, summary or image_description |
| Dashboard.BlankQueryKeepsList | Frontend/src/pages/Dashboard.tsx:58-65 | an empty or whitespace-only query leaves the type-filtered list unchanged |
| Dashboard.NoFilterShowsAll | Frontend/src/pages/Dashboard.tsx:50-55 | on the "all" and "favorites" pages with a blank query every note is shown, in order |
| Dashboard.VisibleIsSubsequence | Frontend/src/pages/Dashboard.tsx:47-67 | filteredNotes is an order-preserving subsequence of notes |
| Dashboard.ReplaceById | Frontend/src/pages/Dashboard.tsx:100 | the `map` keeps the length of the list |
| Dashboard.RemoveById | Frontend/src/pages/Dashboard.tsx:119 | the filtered list is no longer, and no note in it has the deleted id |
| Dashboard.ReplaceByIdMembership | Frontend/src/pages/Dashboard.tsx:100 | after the `map` a note is in the list iff it was there under another id, or it is the reply and the id was in the list; a reply for an id not in the list leaves it unchanged |
| Dashboard.ReplaceByIdIdempotent | Frontend/src/pages/Dashboard.tsx:131 | applying the same returned note twice gives the same list as once |
| Dashboard.RemoveByIdSpec | Frontend/src/pages/Dashboard.tsx:119 | after a delete a note remains iff it was there and has another id, and the rest keep their order |
| Dashboard.RemoveAfterReplace | Frontend/src/pages/Dashboard.tsx:100-119 | deleting an edited note gives the same list as deleting it unedited |
| Dashboard.RemoveAfterPrepend | Frontend/src/pages/Dashboard.tsx:104-119 | deleting a just-created note (fresh id) restores the list before the create |
| Dashboard.ChipLabel | Frontend/src/pages/Dashboard.tsx:350 | the chip reads "1 note" for one note; otherwise it is the count's digits followed by exactly " notes"; its leading digits read back as the count, followed by a space |
| Dashboard.DashboardPage.Chip | Frontend/src/pages/Dashboard.tsx:350 | the chip on the page is the label for the number of filtered notes, not of all notes |
| Dashboard.EmptyListHeading | Frontend/src/pages/Dashboard.tsx:384 | "No notes found" iff a query is typed, "No notes yet" iff the query is "" |
| Dashboard.NoNotesYetIsTruthful | Frontend/src/pages/Dashboard.tsx:361-384 | on the "all" and "favorites" pages, an empty list headed "No notes yet" means there are no notes at all |
| Dashboard.DashboardPage.constructor | Frontend/src/pages/Dashboard.tsx:28-39 | the initial page state: no notes, empty query, loading, dialog closed, snackbar hidden |
| Dashboard.DashboardPage.EmptyState | Frontend/src/pages/Dashboard.tsx:187-384 | the empty-state heading shows iff loading is over and no note passes the filter, and it is the heading for the current query |
| Dashboard.DashboardPage.VoiceNotesCount | Frontend/src/pages/Dashboard.tsx:201 | the voice count is at most the number of notes |
| Dashboard.DashboardPage.SummarizedCount | Frontend/src/pages/Dashboard.tsx:202 | the summary count is at most the number of notes |
| Dashboard.DashboardPage.ShowSnackbar | Frontend/src/pages/Dashboard.tsx:81-83 | the snackbar opens with the given message and severity |
| Dashboard.DashboardPage.FetchNotes | Frontend/src/pages/Dashboard.tsx:70-79 | loading ends either way; success replaces the list, failure keeps it and shows "Failed to fetch notes" |
| Dashboard.DashboardPage.SetSearchQuery | Frontend/src/pages/Dashboard.tsx:330 | the search box sets the query |
| Dashboard.DashboardPage.HandleCreateNote | Frontend/src/pages/Dashboard.tsx:85-88 | the dialog opens with no note being edited |
| Dashboard.DashboardPage.HandleEditNote | Frontend/src/pages/Dashboard.tsx:90-93 | the dialog opens on the given note |
| Dashboard.DashboardPage.HandleSaveNote | Frontend/src/pages/Dashboard.tsx:95-113 | an update replaces the edited id with the reply; a create puts the reply first; only success closes the dialog; failure keeps notes and shows "Failed to save note"; dialogLoading ends false |
| Dashboard.DashboardPage.HandleDeleteNote | Frontend/src/pages/Dashboard.tsx:115-125 | only a confirmed, successful delete removes every note with that id; otherwise notes are unchanged; the snackbar reports the outcome, and nothing is shown without confirmation |
| Dashboard.DashboardPage.ApplyNoteUpdate | Frontend/src/pages/Dashboard.tsx:127-185 | the pattern of the five note actions: success replaces the id's entries with the reply, failure keeps the list; the last message is the outcome's |
| Dashboard.DashboardPage.HandleSummarizeNote | Frontend/src/pages/Dashboard.tsx:127-136 | success replaces the id's entries with the reply and opens a success snackbar "Summary generated successfully"; failure keeps the list and opens an error snackbar "Failed to generate summary" |
| Dashboard.DashboardPage.HandleUploadImage | Frontend/src/pages/Dashboard.tsx:138-147 | success replaces the id's entries with the reply and opens a success snackbar "Image uploaded successfully! AI analysis in progress..."; failure keeps the list and opens an error snackbar "Failed to upload image" |
| Dashboard.DashboardPage.HandleAnalyzeImage | Frontend/src/pages/Dashboard.tsx:149-158 | success replaces the id's entries with the reply and opens a success snackbar "Image analysis completed successfully"; failure keeps the list and opens an error snackbar "Failed to analyze image" |
| Dashboard.DashboardPage.HandleUploadAudio | Frontend/src/pages/Dashboard.tsx:165-174 | success replaces the id's entries with the reply and opens a success snackbar "Audio uploaded successfully!"; failure keeps the list and opens an error snackbar "Failed to upload audio" |
| Dashboard.DashboardPage.HandleTranscribeAudio | Frontend/src/pages/Dashboard.tsx:176-185 | success replaces the id's entries with the reply and opens a success snackbar "Audio transcribed successfully"; failure keeps the list and opens an error snackbar "Failed to transcribe audio" |
| Dashboard.DashboardPage.CloseDialog | Frontend/src/pages/Dashboard.tsx:436 | the dialog's close callback closes it |
| Dashboard.DashboardPage.CloseSnackbar | Frontend/src/pages/Dashboard.tsx:446 | closing hides the snackbar and keeps its message and severity |
| NoteCard.TruncateText | Frontend/src/components/NoteCard.tsx:99-102 | text of length at most maxLength is returned unchanged; longer text becomes its first maxLength characters plus "...", of length maxLength+3 |
| NoteCard.TruncateUnchangedIff | Frontend/src/components/NoteCard.tsx:99-102 | truncation is the identity iff the text fits (or already is its prefix plus "..."), and never yields more than maxLength+3 characters |
| NoteCard.ShownContent | Frontend/src/components/NoteCard.tsx:151 | the card shows at most 153 characters, starting with the content's first min(length, 150); it shows the content itself iff it fits (or already ends its 150 characters with "...") |
| NoteCard.ShownAnalysis | Frontend/src/components/NoteCard.tsx:171-186 | the description box appears iff image_description is present and non-empty, and shows at most 103 characters starting with its first min(length, 100) |
| NoteCard.ShownSummary | Frontend/src/components/NoteCard.tsx:213-228 | the summary box appears iff the summary is present and non-empty, and shows at most 103 characters starting with its first min(length, 100) |
| NoteCard.SeeMoreIffTruncated | Frontend/src/components/NoteCard.tsx:171-228 | "See More" under the description or the summary appears exactly when the box shows the first 100 characters plus "..." instead of the whole text |
| NoteCard.DisplayTitle | Frontend/src/components/NoteCard.tsx:143 | the title shown is the title when present and non-empty, else "Untitled Note" |
| NoteCard.MenuItems | Frontend/src/components/NoteCard.tsx:264-281 | "Analyze Image" is in the menu iff the note has an image_path; edit, summarize, upload and delete always are |
| NoteCard.NoteCardView.constructor | Frontend/src/components/NoteCard.tsx:46-51 | menu and modal closed, empty modal title and content |
| NoteCard.NoteCardView.HandleMenuOpen | Frontend/src/components/NoteCard.tsx:53-55 | the menu opens |
| NoteCard.NoteCardView.HandleMenuClose | Frontend/src/components/NoteCard.tsx:57-59 | the menu closes |
| NoteCard.NoteCardView.HandleEdit | Frontend/src/components/NoteCard.tsx:61-64 | forwards the note to onEdit and closes the menu |
| NoteCard.NoteCardView.HandleDelete | Frontend/src/components/NoteCard.tsx:66-69 | forwards the id to onDelete and closes the menu |
| NoteCard.NoteCardView.HandleSummarize | Frontend/src/components/NoteCard.tsx:71-74 | forwards the id to onSummarize and closes the menu |
| NoteCard.NoteCardView.HandleImageUpload | Frontend/src/components/NoteCard.tsx:76-82 | forwards the first picked file only when there is one; the menu closes either way |
| NoteCard.NoteCardView.HandleAnalyzeImage | Frontend/src/components/NoteCard.tsx:84-87 | forwards the id to onAnalyzeImage and closes the menu |
| NoteCard.NoteCardView.HandleSeeMoreImage | Frontend/src/components/NoteCard.tsx:109-113 | the modal opens titled "AI Image Analysis" with the full description, "" when absent |
| NoteCard.NoteCardView.HandleSeeMoreSummary | Frontend/src/components/NoteCard.tsx:116-120 | the modal opens titled "AI Summary" with the full summary, "" when absent |
| NoteCard.NoteCardView.HandleCloseModal | Frontend/src/components/NoteCard.tsx:122-124 | the modal closes |
| Statistics.RoundDiv | Frontend/src/pages/Statistics.tsx:42-44 | `Math.round(a / b)` is the integer nearest a/b, halves up: 2br <= 2a+b < 2b(r+1) |
| Statistics.RoundDivMonotone | Frontend/src/pages/Statistics.tsx:43 | rounding the quotient is monotone in the numerator |
| Statistics.RoundDivExact | Frontend/src/pages/Statistics.tsx:43 | rounding an exact quotient returns it |
| Statistics.CountsWithinTotal | Frontend/src/pages/Statistics.tsx:28-31 | the voice, image and summary counts each lie between 0 and totalNotes |
| Statistics.TotalCharacters | Frontend/src/pages/Statistics.tsx:221 | the character total is at least each note's content length, and is 0 iff every content is empty |
| Statistics.TotalCharactersSingle | Frontend/src/pages/Statistics.tsx:221 | one note's total is its content length |
| Statistics.TotalCharactersAppend | Frontend/src/pages/Statistics.tsx:221 | the total of two lists put together is the sum of their totals, so the total is the sum of the content lengths |
| Statistics.AvgLength | Frontend/src/pages/Statistics.tsx:42-44 | 0 for no notes, otherwise the integer nearest to total/count, halves up |
| Statistics.Percentage | Frontend/src/pages/Statistics.tsx:161-177 | 0 for no notes, otherwise the integer nearest to 100·count/total, halves up |
| Statistics.PercentageInRange | Frontend/src/pages/Statistics.tsx:161-177 | each percentage of a part of the notes is at most 100, and is exactly 100 when the part is all of them |
| Statistics.LongestNote | Frontend/src/pages/Statistics.tsx:239-241 | "Longest Note" is 0 for no notes, otherwise at least every content length and equal to one of them |
| Statistics.LongestAtMostTotal | Frontend/src/pages/Statistics.tsx:221-241 | the longest note never exceeds "Total Characters" |
| Statistics.TotalBetweenLongestAndScaled | Frontend/src/pages/Statistics.tsx:221-241 | Total Characters lies between the longest note and the count times the longest note |
| Statistics.AvgAtMostLongest | Frontend/src/pages/Statistics.tsx:42-44 | the rounded average never exceeds the longest note |
| Statistics.AvgOfUniformLengths | Frontend/src/pages/Statistics.tsx:42-44 | when all notes have length len the average is exactly len |
| Statistics.ShownPanels | Frontend/src/pages/Statistics.tsx:142-253 | the insights grid and the empty-state panel are exclusive; the empty state shows exactly when there are no notes |
| AudioRecorder.FormatTime | Frontend/src/components/AudioRecorder.tsx:69-73 | the label is the minutes written without leading zeros, a colon, and two digits that read back as the seconds within the minute (65 gives "1:05"); it starts with "0" only below one minute; parsing it back gives exactly the seconds that were formatted |
| Text.NatToStringLeadingZero | Frontend/src/components/AudioRecorder.tsx:70 | the decimal form of a number starts with "0" iff the number is 0 |
| AudioRecorder.TwoDigitSeconds | Frontend/src/components/AudioRecorder.tsx:71-72 | seconds below 60 padded to two characters are two digits that read back as the seconds |
| AudioRecorder.VisibleControls | Frontend/src/components/AudioRecorder.tsx:182-234 | Start iff idle without a blob, Stop iff recording, Upload/Retake iff a blob while not recording; exactly one group is visible |
| AudioRecorder.Recorder.constructor | Frontend/src/components/AudioRecorder.tsx:10-15 | idle, no blob, clock at 0, no chunks, no recorder |
| AudioRecorder.Recorder.StartRecording | Frontend/src/components/AudioRecorder.tsx:17-48 | a refused microphone changes nothing; otherwise the chunks are cleared, recording starts, the clock restarts at 0 and the timer runs |
| AudioRecorder.Recorder.OnDataAvailable | Frontend/src/components/AudioRecorder.tsx:24-28 | only chunks of positive size are appended, in arrival order |
| AudioRecorder.Recorder.Tick | Frontend/src/components/AudioRecorder.tsx:40-42 | each tick of the running timer adds exactly one second |
| AudioRecorder.Recorder.StopRecording | Frontend/src/components/AudioRecorder.tsx:50-59 | stops recording and the timer only when a recorder exists and recording is on; otherwise nothing changes |
| AudioRecorder.Recorder.OnStop | Frontend/src/components/AudioRecorder.tsx:30-34 | the blob is built from the collected chunks as audio/webm |
| AudioRecorder.Recorder.HandleUpload | Frontend/src/components/AudioRecorder.tsx:61-67 | with a blob: delivered exactly once, then cleared and the clock reset; without: nothing |
| AudioRecorder.Recorder.Retake | Frontend/src/components/AudioRecorder.tsx:259 | the blob is dropped and the clock kept |
| NoteDialog.InitialForm | Frontend/src/components/NoteDialog.tsx:35-47 | editing shows (title or "", content); creating shows ("", "") |
| NoteDialog.SubmitDisabled | Frontend/src/components/NoteDialog.tsx:122 | submit is disabled iff loading or the content is all whitespace |
| NoteDialog.Heading | Frontend/src/components/NoteDialog.tsx:80 | "Edit Note" iff a note is given, else "Create New Note" |
| NoteDialog.SubmitLabel | Frontend/src/components/NoteDialog.tsx:124 | "Saving..." iff loading; otherwise "Update" iff editing and "Create" iff creating |
| NoteDialog.NoteForm.constructor | Frontend/src/components/NoteDialog.tsx:30-33 | both fields start empty |
| NoteDialog.NoteForm.Sync | Frontend/src/components/NoteDialog.tsx:35-47 | the effect sets the form to the initial form for the note |
| NoteDialog.NoteForm.HandleChange | Frontend/src/components/NoteDialog.tsx:49-54 | only the named field changes |
| NoteDialog.NoteForm.HandleSubmit | Frontend/src/components/NoteDialog.tsx:56-59 | onSave receives the current form unchanged |
| NoteDialog.NoteForm.HandleClose | Frontend/src/components/NoteDialog.tsx:61-64 | both fields are reset to "" |
| ProfilePage.FormFromUser | Frontend/src/pages/Profile.tsx:27-31 | the form holds the user's full_name, email and bio, each "" when missing |
| ProfilePage.ValidateAvatar | Frontend/src/pages/Profile.tsx:44-58 | no file iff NoFile; non-"image/" type iff "Please select an image file"; an image over 5 MiB iff "Image size must be less than 5MB"; accepted iff an image of at most 5 MiB |
| ProfilePage.ErrorText | Frontend/src/pages/Profile.tsx:76 | the server's detail when non-empty, else the fallback |
| ProfilePage.AvatarUrl | Frontend/src/pages/Profile.tsx:126-130 | the preview if set, else the backend URL of avatar_path, else none; none iff neither is present |
| ProfilePage.ProfileView.constructor | Frontend/src/pages/Profile.tsx:20-31 | form from the user, not editing, no messages, no preview |
| ProfilePage.ProfileView.HandleInputChange | Frontend/src/pages/Profile.tsx:33-38 | only the named form field changes |
| ProfilePage.ProfileView.StartEditing | Frontend/src/pages/Profile.tsx:259 | edit mode starts |
| ProfilePage.ProfileView.HandleAvatarChange | Frontend/src/pages/Profile.tsx:44-80 | no file: nothing changes; rejected file: only the error is set, nothing uploaded; accepted: preview shown, the user replaced on success, the server detail or default on failure; loading ends false |
| ProfilePage.ProfileView.HandleDeleteAvatar | Frontend/src/pages/Profile.tsx:82-98 | unconfirmed: nothing changes; success drops the preview and replaces the user; failure sets the detail or default |
| ProfilePage.ProfileView.HandleSave | Frontend/src/pages/Profile.tsx:100-114 | success leaves edit mode with the success message; failure stays in edit mode with the detail or default message |
| ProfilePage.ProfileView.HandleCancel | Frontend/src/pages/Profile.tsx:116-124 | the form is rebuilt from the user, edit mode ends, the error is cleared |
| ProfilePage.ProfileView.ClearSuccess | Frontend/src/pages/Profile.tsx:74 | the delayed callback clears the success message |
| Theme.InitialMode | Frontend/src/contexts/ThemeContext.tsx:33-49 | a non-empty saved value wins unvalidated; otherwise "dark" iff matchMedia exists and prefers dark, else "light" |
| Theme.Toggle | Frontend/src/contexts/ThemeContext.tsx:56-58 | the toggle always yields a valid mode, different from a valid input |
| Theme.ToggleTwiceIff | Frontend/src/contexts/ThemeContext.tsx:56-58 | toggling twice is the identity iff the mode is "light" or "dark"; any other value becomes "light" |
| Theme.PaletteFor | Frontend/src/contexts/ThemeContext.tsx:60-107 | primary is "#1976d2" and background "#f5f5f5" for light, "#90caf9" and "#121212" for every other mode |
| Theme.PaletteDependsOnLightOnly | Frontend/src/contexts/ThemeContext.tsx:60-107 | the colours depend only on whether the mode is "light" |
| Theme.ToggleChangesEveryColour | Frontend/src/contexts/ThemeContext.tsx:56-107 | a toggle changes each of the ten colours |
| Theme.UseTheme | Frontend/src/contexts/ThemeContext.tsx:18-24 | outside a provider the hook fails with "useTheme must be used within a ThemeProvider"; inside it returns the context |
| Theme.ThemeProvider.constructor | Frontend/src/contexts/ThemeContext.tsx:33-54 | the mode is the initial mode from storage and system preference, and it is stored under "theme" |
| Theme.ThemeProvider.ToggleTheme | Frontend/src/contexts/ThemeContext.tsx:51-58 | the mode toggles and storage keeps holding the current mode |
| NotesRoutes.OwnedNote | Backend/app/notes/routes.py:114-116 | found iff the id exists and the caller owns it; another user's note is indistinguishable from a missing one |
| NotesRoutes.CreateNote | Backend/app/notes/routes.py:97-103 | exactly one new row under a fresh id, owned by the caller, with the given title and content and no AI or media fields |
| NotesRoutes.ListNotes | Backend/app/notes/routes.py:106-109 | exactly the caller's notes, each once, as stored |
| NotesRoutes.GetNote | Backend/app/notes/routes.py:112-117 | the owned note, else 404 "Note not found" |
| NotesRoutes.UpdateNote | Backend/app/notes/routes.py:120-130 | 404 when not owned; otherwise only title (possibly to null) and content change, in that row only |
| NotesRoutes.DeleteNote | Backend/app/notes/routes.py:133-140 | 404 when not owned; otherwise exactly that row is removed |
| NotesRoutes.SummarizeText | Backend/app/notes/routes.py:21-42 | text that is only Python whitespace (including 0x1C-0x1F) gives "No content to summarize." whatever the model does; a non-empty reply is `str.strip`ped; no reply and an exception give their fixed texts |
| NotesRoutes.AnalyzeImageText | Backend/app/notes/routes.py:45-69 | the same reply handling for image analysis, without the empty guard: a non-empty reply is `str.strip`ped, no reply and an exception give their fixed texts |
| NotesRoutes.ReplyText | Backend/app/notes/routes.py:32-42 | a non-empty reply becomes its text stripped of exactly its surrounding Python whitespace; an empty or missing reply the no-response text; an exception the prefix followed by its message |
| Text.TrimMeetsSpec | Backend/app/notes/routes.py:33 | `strip` (and `trim`) returns a substring of the text with only whitespace before and after it, that neither starts nor ends with whitespace |
| Text.TrimIsUnique | Backend/app/notes/routes.py:33 | any string with that description is the trimmed text, so the description defines trimming |
| Text.TrimEmptyIffBlank | Frontend/src/components/NoteDialog.tsx:122 | a text trims to "" exactly when every character of it is whitespace |
| Text.TrimIdempotent | Backend/app/notes/routes.py:33 | stripping a stripped text changes nothing |
| NotesRoutes.SummaryIsTrimmed | Backend/app/notes/routes.py:32-35 | a summary from a real reply is that reply with exactly its surrounding Python whitespace removed, and stripping it again changes nothing |
| NotesRoutes.SummarizeNote | Backend/app/notes/routes.py:143-163 | 404 when not owned; otherwise the note as it is, with a summary job for its current content |
| NotesRoutes.RunSummaryTask | Backend/app/notes/routes.py:149-160 | the job writes the summary into the note if it still exists, and changes nothing else |
| NotesRoutes.RunAnalysisTask | Backend/app/notes/routes.py:193-204 | the job writes the description into the note if it still exists, and changes nothing else |
| NotesRoutes.Extension | Backend/app/notes/routes.py:80 | `os.path.splitext` gives a suffix of the name that starts with its only dot and has no separator |
| NotesRoutes.SavedImagePath | Backend/app/notes/routes.py:76-82 | the saved path starts with "uploads/{user_id}_" and ends with the file's extension |
| NotesRoutes.SavedPathsDistinct | Backend/app/notes/routes.py:81 | two UUIDs of equal length that differ give two different paths for one user |
| NotesRoutes.UploadImage | Backend/app/notes/routes.py:166-207 | a non-image type is 400 before any lookup or write; then 404; then a failed write is 500; only success sets image_path to the saved path and queues its analysis; no failure changes a row |
| NotesRoutes.AnalyzeNoteImage | Backend/app/notes/routes.py:210-233 | 404 when not owned, 400 "Note has no image to analyze" without an image; otherwise the note as is and an analysis job for its image |
| Users.Register | Backend/app/auth/routes.py:16-29 | 400 iff the username or the email is taken; otherwise exactly one new row holding the password's hash and no profile fields, replied with as id, username and email only; uniqueness is preserved |
| Users.Login | Backend/app/auth/routes.py:32-43 | the same 401 for an unknown user and a wrong password; otherwise a "bearer" token signed over the user's id and name with the configured lifetime |
| Users.GetProfile | Backend/app/profile/routes.py:19-25 | the reply is the current user's id, username and email, as `UserOut` has them |
| Users.ReplyHidesProfile | Backend/app/schemas.py:13-17 | a `UserOut` reply is the same whatever full_name, bio, avatar_path or password hash the row holds |
| Users.UpdateProfile | Backend/app/profile/routes.py:28-58 | an email change (non-empty and different) to another user's email is 400 "Email already registered" with nothing changed; otherwise full_name and bio are set whenever given, even to "", the email only when changed, nothing else; the reply is id, username and email; uniqueness is preserved |
| Users.PathSuffix | Backend/app/profile/routes.py:83 | `Path.suffix` is a suffix of the name, either empty or a dot and at least one character with no further dot or separator |
| Users.CenteredSquare | Backend/app/profile/routes.py:103-111 | the box has side min(w,h), lies within the image, and is centred to within one pixel on each axis |
| Users.SquareIsNotCropped | Backend/app/profile/routes.py:104 | a square image's box is the whole image |
| Users.CropFor | Backend/app/profile/routes.py:103-111 | a crop happens iff the thumbnail is not square, and then is the centred square |
| Users.AvatarPathParts | Backend/app/profile/routes.py:82-85 | a new avatar is stored at "uploads/avatars/" followed by the UUID and the upload's suffix |
| Users.DistinctUuidsDistinctPaths | Backend/app/profile/routes.py:82-85 | uploads named by different UUIDs of one length never share a path, whatever the file names |
| Users.UploadAvatar | Backend/app/profile/routes.py:61-130 | as written: 400 for a non-image; the old file is deleted before processing; on success (replying id, username and email) the user points at "uploads/avatars/{uuid}{suffix}"; on failure 500, the new file removed, and the user still names the deleted old file |
| Users.UploadAvatarKeepingOld | Backend/app/profile/routes.py:61-130 | the corrected upload: same replies, but the old file is deleted only after success, so the user's avatar file always exists |
| Users.DeleteAvatar | Backend/app/profile/routes.py:133-156 | 404 "No avatar to delete" iff there is none; otherwise the file is removed and avatar_path cleared, nothing else; the reply is id, username and email |
| Sqlite.AddColumn | Backend/migrate_profile.py:25 | `ALTER TABLE ADD COLUMN` appends the column and leaves it NULL in every row |
| Sqlite.AddColumns | Backend/migrate_profile.py:24-52 | several ALTERs in a row append their columns in order; every row keeps its other cells and holds NULL in each added column |
| Sqlite.FillNulls | Backend/migrate_profile.py:49 | the UPDATE fills exactly the NULL cells of the column, leaving set ones |
| Sqlite.Connection.constructor | Backend/migrate_profile.py:15 | a new connection is open with no transaction |
| Sqlite.Connection.TableInfo | Backend/migrate_profile.py:20-21 | `PRAGMA table_info` gives the column names as seen by the connection, none for a missing table |
| Sqlite.Connection.AddColumnTo | Backend/migrate_profile.py:25 | fails on a missing table or an existing column; outside a transaction it is written to the file at once |
| Sqlite.Connection.FillNullsIn | Backend/migrate_profile.py:49 | the UPDATE opens a transaction holding the filled table |
| Sqlite.Connection.Commit | Backend/migrate_profile.py:54 | the transaction's view becomes the file |
| Sqlite.Connection.Rollback | Backend/migrate_profile.py:59 | only the open transaction is dropped |
| Sqlite.Connection.Close | Backend/migrate_profile.py:61 | the connection closes and loses any uncommitted transaction |
| Migrations.Missing | Backend/migrate_profile.py:24-52 | a column is added iff it is wanted and absent from the columns read at the start |
| Migrations.Migrated | Backend/migrate_profile.py:24-52 | after the ALTERs the old columns come first and in order, the table has exactly its own and the wanted columns, the same number of rows, every row keeps its cells in the old columns and holds NULL in each added column |
| Migrations.AddColumnIfMissing | Backend/migrate_profile.py:24-28 | one `if c not in columns` block: skipped for a present column, otherwise the ALTER either fails (nothing changes) or brings the file one block further |
| Migrations.AddMissingColumns | Backend/migrate_profile.py:24-52 | the blocks in order; on success all missing columns are appended; on failure the blocks before the failing one have taken effect |
| Migrations.MigratedIdempotent | Backend/migrate_profile.py:24-52 | a second run finds no missing column and adds nothing |
| Migrations.MigratedHasWanted | Backend/migrate_profile.py:24-52 | after the migration every wanted column is present |
| Migrations.AddedThenFill | Backend/migrate_profile.py:45-49 | once all blocks ran, updated_at is a column and filling it gives the migrated table with it filled |
| Migrations.ProfileMigrated | Backend/migrate_profile.py:24-52 | the migrated users table has exactly its own and the four profile columns, the same rows, and, in the run that adds updated_at, every row's updated_at is the timestamp |
| Migrations.ProfileMigratedIdempotent | Backend/migrate_profile.py:24-52 | running the profile migration on its own result changes nothing: no column added, no row backfilled |
| Migrations.ProfileOutcome | Backend/migrate_profile.py:23-52 | after every block has run, the users table is the profile migration of the old one, once updated_at is filled in the run that added it |
| Migrations.ProfileSteps | Backend/migrate_profile.py:18-55 | the try block: columns read, missing ones added, updated_at backfilled only in the run that adds it, committed |
| Migrations.FillAndCommit | Backend/migrate_profile.py:44-54 | the end of the try block: updated_at is filled only in the run that added it, then the commit makes the tables the migrated ones; any failure leaves the committed tables as they were |
| Migrations.MigrateProfile | Backend/migrate_profile.py:10-61 | no file: nothing; otherwise the connection always ends closed; success gives the old columns plus the missing ones with the backfill; a failure keeps only the ALTERs already done |
| Migrations.NotesSteps | Backend/migrate_db.py:19-37 | the try block of both notes migrations: read, add the missing wanted columns, commit |
| Migrations.MigrateImages | Backend/migrate_db.py:8-42 | no file: nothing; success appends the missing image columns and closes; a failure leaves the connection open without rollback |
| Migrations.MigrateAudio | Backend/migrate_audio.py:9-40 | no file: nothing; success appends the missing audio columns; rollback on failure, close on every path |

## Left out

- Unicode: lower-casing covers ASCII letters only. Lengths count `char`s, not UTF-16 code units.
- Statistics.RoundDiv: `Math.round` is modelled on exact rationals. The source's floating-point quotient may round differently at exact halves. The percentages are modelled as round(100·count/total), not round((count/total)·100).
- The statistics figures that depend on dates ("this week", "Most Recent Note") are left out. So are the word count and `toLocaleString` formatting.
- Asynchronous React state: each handler is one atomic step on the latest state. Stale closures, interleaved requests and the three-second `setTimeout` are not modelled; `ClearSuccess` stands for the timer firing.
- The file reader's preview arrives as a parameter (`dataUrl`). Its timing relative to the upload is not modelled.
- The `window.confirm` dialogs, the microphone prompt and the browser's MediaRecorder are inputs. Recorded data is an opaque `Chunk`.
- The AI models (Gemini), image decoding and saving (PIL), the thumbnail resize to 200×200, and all file contents are out of scope. Their outcomes are parameters; the crop only receives the thumbnail's size.
- Background jobs are separate operations (`RunSummaryTask`, `RunAnalysisTask`) that the caller runs later. Their scheduling and sessions are not modelled.
- NotesRoutes.CreateNote, NotesRoutes.ListNotes, NotesRoutes.GetNote, NotesRoutes.UpdateNote, NotesRoutes.SummarizeNote, NotesRoutes.UploadImage, NotesRoutes.AnalyzeNoteImage: these routes reply with the stored note. The `NoteOut` schema (`schemas.py`) would drop audio_path and add the created_at and updated_at timestamps; that filtering is not modelled, and timestamps are not modelled anywhere.
- `UserOut`'s created_at is not modelled.
- Request validation is not modelled: a malformed e-mail address in `UserCreate` (an `EmailStr`) or a malformed body would get a 422 reply before `Users.Register` or any other route runs.
- Users.Login: `create_access_token` and password hashing live in `auth/utils.py`, which is not part of this model. They are function parameters. The token's JWT encoding and expiry timestamp are not modelled, only the claims and the lifetime. The lifetime is the `ACCESS_TOKEN_EXPIRE_MINUTES` setting, 60 unless the environment overrides it, passed in as a parameter.
- The welcome and login e-mails (`tasks.py`, Celery) are side effects and are not modelled.
- `/auth/me`, `get_image`, the authentication context and the dependency that resolves the current user are not modelled. The current user's id is a parameter.
- The audio upload and transcription routes are not in the backend. The client handlers are modelled against whatever reply arrives.
- Row ids come from a counter. The database's own id allocation and the order of `list_notes` are left open.
- The profile update body: `profile/routes.py:30` names `schemas.UserProfileUpdate`, but `schemas.py` defines no such class, so the module as written would fail at import. The model's three optional fields (email, full_name, bio) are inferred from their uses at `profile/routes.py:37-54`.
- Migrations: column SQL types are not modelled. Neither is the `CURRENT_TIMESTAMP` value (a parameter `now`), nor a failing `sqlite3.connect`.
- Migrations.AddMissingColumns: the scripts write one `if` block per column; the model runs the same block over the list of wanted columns in the same order. Execution is the same.

## Findings

| source | as written | input that shows it | evidently intended | confidence | as-written member | corrected member |
|---|---|---|---|---|---|---|
| Backend/app/profile/routes.py:76-80 | the old avatar file is deleted before the new image is processed, and a processing failure leaves `avatar_path` pointing at the deleted file | a user with an avatar uploads a file with an "image/" content type that PIL cannot open | delete the old file only after the new one is in place, so a failed upload keeps the old avatar | not executed | Users.UploadAvatar | Users.UploadAvatarKeepingOld |
