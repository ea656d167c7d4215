// One card of the note grid: truncated text, the "See More" modal, the
// title fallback and the card's menu.

module NoteCard {
  import opened Wrappers
  import opened NoteTypes

  const ContentLimit: nat := 150
  const AnalysisLimit: nat := 100

  /** `truncateText`: the text itself when it fits, otherwise its first
      maxLength characters followed by "...". */
  function TruncateText(text: string, maxLength: nat): (r: string)
    ensures |text| <= maxLength ==> r == text
    ensures |text| > maxLength ==> |r| == maxLength + 3 && r[..maxLength] == text[..maxLength]
                                   && r[maxLength..] == "..."
  {
    if |text| <= maxLength then text else text[..maxLength] + "..."
  }

  /** Truncation leaves a text unchanged exactly when it fits, or in the
      one coincidence where the text already is its first maxLength
      characters followed by "...". */
  lemma TruncateUnchangedIff(text: string, maxLength: nat)
    ensures TruncateText(text, maxLength) == text
      <==> |text| <= maxLength || (|text| == maxLength + 3 && text[maxLength..] == "...")
    ensures |TruncateText(text, maxLength)| <= maxLength + 3
  {
    if |text| > maxLength {
      var r := TruncateText(text, maxLength);
      if |text| == maxLength + 3 && text[maxLength..] == "..." {
        assert text == text[..maxLength] + text[maxLength..];
      }
      if r == text {
        assert text[maxLength..] == r[maxLength..];
      }
    }
  }

  /** What a box shows of a text cut at limit: at most limit + 3
      characters, starting with the text's first min(|text|, limit). */
  ghost predicate ShowsStartOf(shown: string, text: string, limit: nat) {
    var m := if |text| < limit then |text| else limit;
    |shown| <= limit + 3 && m <= |shown| && shown[..m] == text[..m]
  }

  /** The body text of the card: the content itself when it has at most
      150 characters, otherwise its start. */
  function ShownContent(n: Note): (s: string)
    ensures ShowsStartOf(s, n.content, ContentLimit)
    ensures s == n.content <==> |n.content| <= ContentLimit || (|n.content| == ContentLimit + 3 && n.content[ContentLimit..] == "...")
  {
    TruncateUnchangedIff(n.content, ContentLimit);
    TruncateText(n.content, ContentLimit)
  }

  /** The AI boxes: shown only when the field is present and non-empty,
      with their text cut at 100 characters. */
  function ShownAnalysis(n: Note): (r: Option<string>)
    ensures r.Some? <==> Present(n.imageDescription)
    ensures r.Some? ==> ShowsStartOf(r.value, n.imageDescription.value, AnalysisLimit)
  {
    if Present(n.imageDescription) then Some(TruncateText(n.imageDescription.value, AnalysisLimit)) else None
  }

  function ShownSummary(n: Note): (r: Option<string>)
    ensures r.Some? <==> Present(n.summary)
    ensures r.Some? ==> ShowsStartOf(r.value, n.summary.value, AnalysisLimit)
  {
    if Present(n.summary) then Some(TruncateText(n.summary.value, AnalysisLimit)) else None
  }

  /** "See More" under a box appears when its text is longer than 100. */
  predicate SeeMoreForAnalysis(n: Note) {
    Present(n.imageDescription) && |n.imageDescription.value| > AnalysisLimit
  }

  predicate SeeMoreForSummary(n: Note) {
    Present(n.summary) && |n.summary.value| > AnalysisLimit
  }

  /** The button appears exactly when the box shows the first 100
      characters and an ellipsis instead of the whole text. */
  lemma SeeMoreIffTruncated(n: Note)
    ensures SeeMoreForAnalysis(n) ==> ShownAnalysis(n) == Some(n.imageDescription.value[..AnalysisLimit] + "...")
    ensures Present(n.imageDescription) && !SeeMoreForAnalysis(n) ==> ShownAnalysis(n) == n.imageDescription
    ensures SeeMoreForSummary(n) ==> ShownSummary(n) == Some(n.summary.value[..AnalysisLimit] + "...")
    ensures Present(n.summary) && !SeeMoreForSummary(n) ==> ShownSummary(n) == n.summary
  {
  }

  /** `note.title || "Untitled Note"`. */
  function DisplayTitle(n: Note): (r: string)
    ensures r == "Untitled Note" <==> !Present(n.title) || n.title.value == "Untitled Note"
    ensures Present(n.title) ==> r == n.title.value
  {
    if Present(n.title) then n.title.value else "Untitled Note"
  }

  datatype MenuItem = EditItem | SummarizeItem | UploadImageItem | AnalyzeImageItem | DeleteItem

  /** The menu entries, in display order; "Analyze Image" only for a note
      that has an image. */
  function MenuItems(n: Note): (r: seq<MenuItem>)
    ensures AnalyzeImageItem in r <==> HasImage(n)
    ensures EditItem in r && SummarizeItem in r && UploadImageItem in r && DeleteItem in r
  {
    [EditItem, SummarizeItem, UploadImageItem]
    + (if HasImage(n) then [AnalyzeImageItem] else [])
    + [DeleteItem]
  }

  /** A picked file, reduced to what the handlers pass on. */
  datatype PickedFile = PickedFile(name: string, mimeType: string, size: nat)

  /** The callbacks a card invokes on its parent. */
  datatype CardAction =
    | EditNote(note: Note)
    | DeleteNote(id: int)
    | SummarizeNote(id: int)
    | UploadImage(id: int, file: PickedFile)
    | AnalyzeImage(id: int)

  class NoteCardView {
    const note: Note
    var menuOpen: bool
    var openModal: bool
    var modalTitle: string
    var modalContent: string

    constructor (note: Note)
      ensures this.note == note
      ensures !menuOpen && !openModal && modalTitle == "" && modalContent == ""
    {
      this.note := note;
      menuOpen := false;
      openModal := false;
      modalTitle := "";
      modalContent := "";
    }

    method HandleMenuOpen()
      modifies this`menuOpen
      ensures menuOpen
    {
      menuOpen := true;
    }

    method HandleMenuClose()
      modifies this`menuOpen
      ensures !menuOpen
    {
      menuOpen := false;
    }

    method HandleEdit() returns (action: CardAction)
      modifies this`menuOpen
      ensures action == EditNote(note) && !menuOpen
    {
      action := EditNote(note);
      HandleMenuClose();
    }

    method HandleDelete() returns (action: CardAction)
      modifies this`menuOpen
      ensures action == DeleteNote(note.id) && !menuOpen
    {
      action := DeleteNote(note.id);
      HandleMenuClose();
    }

    method HandleSummarize() returns (action: CardAction)
      modifies this`menuOpen
      ensures action == SummarizeNote(note.id) && !menuOpen
    {
      action := SummarizeNote(note.id);
      HandleMenuClose();
    }

    /** The file input's change handler: forwards the first picked file, if
        any, and closes the menu either way. */
    method HandleImageUpload(picked: seq<PickedFile>) returns (action: Option<CardAction>)
      modifies this`menuOpen
      ensures picked == [] ==> action == None
      ensures picked != [] ==> action == Some(UploadImage(note.id, picked[0]))
      ensures !menuOpen
    {
      if picked != [] {
        action := Some(UploadImage(note.id, picked[0]));
      } else {
        action := None;
      }
      HandleMenuClose();
    }

    method HandleAnalyzeImage() returns (action: CardAction)
      modifies this`menuOpen
      ensures action == AnalyzeImage(note.id) && !menuOpen
    {
      action := AnalyzeImage(note.id);
      HandleMenuClose();
    }

    /** "See More" under the image analysis: the full, untruncated text. */
    method HandleSeeMoreImage()
      modifies this`modalTitle, this`modalContent, this`openModal
      ensures openModal && modalTitle == "AI Image Analysis"
      ensures modalContent == note.imageDescription.GetOr("")
    {
      modalTitle := "AI Image Analysis";
      modalContent := if note.imageDescription.Some? then note.imageDescription.value else "";
      openModal := true;
    }

    /** "See More" under the summary. */
    method HandleSeeMoreSummary()
      modifies this`modalTitle, this`modalContent, this`openModal
      ensures openModal && modalTitle == "AI Summary"
      ensures modalContent == note.summary.GetOr("")
    {
      modalTitle := "AI Summary";
      modalContent := if note.summary.Some? then note.summary.value else "";
      openModal := true;
    }

    method HandleCloseModal()
      modifies this`openModal
      ensures !openModal
    {
      openModal := false;
    }
  }
}
