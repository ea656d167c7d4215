// The statistics page: counts, the rounded average and percentages, the
// character total and the longest note, all computed from the loaded list.

module Statistics {
  import opened NoteTypes

  /** `Math.round(a / b)` for a non-negative a and a positive b: the
      nearest integer, halves rounded up. */
  function RoundDiv(a: nat, b: nat): (r: nat)
    requires b > 0
    ensures 2 * b * r <= 2 * a + b < 2 * b * (r + 1)
  {
    DivBounds(2 * a + b, 2 * b);
    (2 * a + b) / (2 * b)
  }

  lemma DivBounds(x: nat, y: nat)
    requires y > 0
    ensures y * (x / y) <= x < y * (x / y + 1)
  {
  }

  /** RoundDiv is monotone in the numerator. */
  lemma RoundDivMonotone(a1: nat, a2: nat, b: nat)
    requires b > 0 && a1 <= a2
    ensures RoundDiv(a1, b) <= RoundDiv(a2, b)
  {
    var r1, r2 := RoundDiv(a1, b), RoundDiv(a2, b);
    if r1 > r2 {
      MulMonotone(2 * b, r2 + 1, r1);
    }
  }

  lemma MulMonotone(k: nat, x: nat, y: nat)
    requires x <= y
    ensures k * x <= k * y
  {
  }

  /** Rounding n*c/n gives c back. */
  lemma RoundDivExact(c: nat, b: nat)
    requires b > 0
    ensures RoundDiv(b * c, b) == c
  {
    var r := RoundDiv(b * c, b);
    var k := r - c;
    assert 2 * b * r == 2 * b * c + 2 * b * k;
    MulSign(2 * b, k);
  }

  lemma MulSign(y: int, k: int)
    requires y > 0
    ensures k >= 1 ==> y * k >= y
    ensures k <= -1 ==> y * k <= -y
  {
    if k >= 1 {
      assert y * k == y + y * (k - 1);
    } else if k <= -1 {
      assert y * k == -y + y * (k + 1);
    }
  }

  function TotalNotes(notes: seq<Note>): nat { |notes| }
  function VoiceNotes(notes: seq<Note>): nat { Count(notes, HasAudio) }
  function NotesWithImages(notes: seq<Note>): nat { Count(notes, HasImage) }
  function SummarizedNotes(notes: seq<Note>): nat { Count(notes, HasSummary) }

  /** Each count lies between 0 and the number of notes. */
  lemma CountsWithinTotal(notes: seq<Note>)
    ensures VoiceNotes(notes) <= TotalNotes(notes)
    ensures NotesWithImages(notes) <= TotalNotes(notes)
    ensures SummarizedNotes(notes) <= TotalNotes(notes)
  {
  }

  /** `notes.reduce((sum, note) => sum + note.content.length, 0)`, the
      "Total Characters" figure. */
  function TotalCharacters(notes: seq<Note>): (r: nat)
    ensures forall i :: 0 <= i < |notes| ==> |notes[i].content| <= r
    ensures r == 0 <==> forall i :: 0 <= i < |notes| ==> notes[i].content == ""
    decreases |notes|
  {
    if notes == [] then 0 else TotalCharacters(notes[..|notes| - 1]) + |notes[|notes| - 1].content|
  }

  /** One note counts its own content. */
  lemma TotalCharactersSingle(n: Note)
    ensures TotalCharacters([n]) == |n.content|
  {
    assert [n][..0] == [];
  }

  /** The total is a sum over the notes: the total of two lists put
      together is the sum of their totals. */
  lemma {:induction false} TotalCharactersAppend(a: seq<Note>, b: seq<Note>)
    ensures TotalCharacters(a + b) == TotalCharacters(a) + TotalCharacters(b)
    decreases |b|
  {
    if b == [] {
      assert a + b == a;
    } else {
      var ab, init, last := a + b, b[..|b| - 1], b[|b| - 1];
      assert ab[..|ab| - 1] == a + init;
      assert ab[|ab| - 1] == last;
      calc {
        TotalCharacters(ab);
        TotalCharacters(a + init) + |last.content|;
        { TotalCharactersAppend(a, init); }
        TotalCharacters(a) + TotalCharacters(init) + |last.content|;
        TotalCharacters(a) + TotalCharacters(b);
      }
    }
  }

  /** The "Avg Length" card: 0 for no notes, otherwise the integer
      nearest to the mean content length, halves rounded up. */
  function AvgLength(notes: seq<Note>): (r: nat)
    ensures notes == [] ==> r == 0
    ensures notes != [] ==> 2 * |notes| * r <= 2 * TotalCharacters(notes) + |notes| < 2 * |notes| * (r + 1)
  {
    if |notes| > 0 then RoundDiv(TotalCharacters(notes), |notes|) else 0
  }

  /** One "Quick Insights" percentage: 0 for no notes, otherwise
      round(100 * count / total). */
  function Percentage(count: nat, total: nat): (r: nat)
    ensures total == 0 ==> r == 0
    ensures total > 0 ==> 2 * total * r <= 200 * count + total < 2 * total * (r + 1)
  {
    if total > 0 then RoundDiv(100 * count, total) else 0
  }

  /** A count that is part of the total gives a percentage in 0..100, and
      the whole gives exactly 100. */
  lemma PercentageInRange(count: nat, total: nat)
    requires count <= total
    ensures Percentage(count, total) <= 100
    ensures total > 0 && count == total ==> Percentage(count, total) == 100
  {
    if total > 0 {
      RoundDivMonotone(100 * count, 100 * total, total);
      assert 100 * total == total * 100;
      RoundDivExact(100, total);
    }
  }

  /** "Longest Note": 0 for no notes, else the largest content length. */
  function LongestNote(notes: seq<Note>): (r: nat)
    ensures forall i :: 0 <= i < |notes| ==> |notes[i].content| <= r
    ensures notes != [] ==> exists i :: 0 <= i < |notes| && r == |notes[i].content|
    ensures notes == [] ==> r == 0
    decreases |notes|
  {
    if notes == [] then 0
    else
      var rest := LongestNote(notes[..|notes| - 1]);
      var last := |notes[|notes| - 1].content|;
      if |notes| == 1 || last > rest then last else rest
  }

  /** The longest note is part of the total. */
  lemma {:induction false} LongestAtMostTotal(notes: seq<Note>)
    ensures LongestNote(notes) <= TotalCharacters(notes)
    decreases |notes|
  {
    if notes != [] {
      LongestAtMostTotal(notes[..|notes| - 1]);
    }
  }

  /** When every note has at most m characters, the total is at most
      |notes| * m. */
  lemma {:induction false} TotalAtMostScaled(notes: seq<Note>, m: nat)
    requires forall i :: 0 <= i < |notes| ==> |notes[i].content| <= m
    ensures TotalCharacters(notes) <= |notes| * m
    decreases |notes|
  {
    if notes != [] {
      var init := notes[..|notes| - 1];
      assert forall i :: 0 <= i < |init| ==> init[i] == notes[i];
      TotalAtMostScaled(init, m);
      assert |notes| * m == |init| * m + m;
    }
  }

  /** The total lies between the longest note and |notes| times it. */
  lemma TotalBetweenLongestAndScaled(notes: seq<Note>)
    ensures LongestNote(notes) <= TotalCharacters(notes) <= |notes| * LongestNote(notes)
  {
    LongestAtMostTotal(notes);
    TotalAtMostScaled(notes, LongestNote(notes));
  }

  /** The average never exceeds the longest note. */
  lemma AvgAtMostLongest(notes: seq<Note>)
    ensures AvgLength(notes) <= LongestNote(notes)
  {
    if notes != [] {
      var n, m := |notes|, LongestNote(notes);
      TotalBetweenLongestAndScaled(notes);
      RoundDivMonotone(TotalCharacters(notes), n * m, n);
      assert n * m == m * n;
      RoundDivExact(m, n);
    }
  }

  /** The average of equal-length notes is that length. */
  lemma {:induction false} AvgOfUniformLengths(notes: seq<Note>, len: nat)
    requires notes != []
    requires forall i :: 0 <= i < |notes| ==> |notes[i].content| == len
    ensures AvgLength(notes) == len
  {
    UniformTotal(notes, len);
    assert |notes| * len == len * |notes|;
    RoundDivExact(len, |notes|);
  }

  lemma {:induction false} UniformTotal(notes: seq<Note>, len: nat)
    requires forall i :: 0 <= i < |notes| ==> |notes[i].content| == len
    ensures TotalCharacters(notes) == |notes| * len
    decreases |notes|
  {
    if notes != [] {
      UniformTotal(notes[..|notes| - 1], len);
      assert |notes| * len == (|notes| - 1) * len + len;
    }
  }

  /** Which of the two lower panels is on screen. */
  datatype Panels = Panels(insights: bool, emptyState: bool)

  /** The insights grid shows only with notes; the empty-state panel shows
      exactly without them. */
  function ShownPanels(notes: seq<Note>): (p: Panels)
    ensures p.insights != p.emptyState
    ensures p.emptyState <==> notes == []
  {
    Panels(TotalNotes(notes) > 0, TotalNotes(notes) == 0)
  }
}
