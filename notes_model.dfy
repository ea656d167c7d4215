// The note record shared by the client and the server, and the list
// operations (`filter`, order-preserving subsequences) the pages build on.

module NoteTypes {
  import opened Wrappers

  /** A note as the API returns it. `audioPath` is read by the client even
      though the declared response shape omits it, so it is optional here. */
  datatype Note = Note(
    id: int,
    title: Option<string>,
    content: string,
    summary: Option<string>,
    imagePath: Option<string>,
    imageDescription: Option<string>,
    audioPath: Option<string>,
    ownerId: nat)

  /** JavaScript truthiness of an optional string: present and non-empty. */
  predicate Present(s: Option<string>) {
    s.Some? && s.value != ""
  }

  predicate HasAudio(n: Note) { Present(n.audioPath) }
  predicate HasImage(n: Note) { Present(n.imagePath) }
  predicate HasSummary(n: Note) { Present(n.summary) }

  /** `xs.filter(keep)`: the elements satisfying keep, in their order. */
  function Select<T(!new)>(xs: seq<T>, keep: T -> bool): (r: seq<T>)
    ensures |r| <= |xs|
    ensures forall x :: x in r <==> x in xs && keep(x)
    decreases |xs|
  {
    if xs == [] then []
    else if keep(xs[0]) then [xs[0]] + Select(xs[1..], keep)
    else Select(xs[1..], keep)
  }

  /** `a` is obtained from `b` by deleting elements, keeping the order. */
  predicate IsSubsequence<T(==)>(a: seq<T>, b: seq<T>)
    decreases |b|
  {
    if a == [] then true
    else if b == [] then false
    else if a[0] == b[0] then IsSubsequence(a[1..], b[1..])
    else IsSubsequence(a, b[1..])
  }

  lemma {:induction false} SubsequenceReflexive<T>(xs: seq<T>)
    ensures IsSubsequence(xs, xs)
    decreases |xs|
  {
    if xs != [] {
      SubsequenceReflexive(xs[1..]);
    }
  }

  /** Dropping the first element of a subsequence leaves a subsequence. */
  lemma {:induction false} SubsequenceTail<T>(a: seq<T>, c: seq<T>)
    requires a != [] && IsSubsequence(a, c)
    ensures IsSubsequence(a[1..], c)
    decreases |c|, 1
  {
    if a[0] == c[0] {
      SubsequenceCons(a[1..], c);
    } else {
      SubsequenceTail(a, c[1..]);
      SubsequenceCons(a[1..], c);
    }
  }

  /** A subsequence of the tail is a subsequence of the whole. */
  lemma {:induction false} SubsequenceCons<T>(x: seq<T>, c: seq<T>)
    requires c != [] && IsSubsequence(x, c[1..])
    ensures IsSubsequence(x, c)
    decreases |c|, 0
  {
    if x != [] && x[0] == c[0] {
      SubsequenceTail(x, c[1..]);
    }
  }

  lemma {:induction false} SubsequenceTransitive<T>(a: seq<T>, b: seq<T>, c: seq<T>)
    requires IsSubsequence(a, b) && IsSubsequence(b, c)
    ensures IsSubsequence(a, c)
    decreases |c|, |b|
  {
    if a != [] && b != [] && c != [] {
      if b[0] == c[0] {
        if a[0] == b[0] {
          SubsequenceTransitive(a[1..], b[1..], c[1..]);
        } else {
          SubsequenceTransitive(a, b[1..], c[1..]);
        }
      } else {
        SubsequenceTransitive(a, b, c[1..]);
        SubsequenceCons(a, c);
      }
    }
  }

  /** Filtering never adds or reorders elements. */
  lemma {:induction false} SelectIsSubsequence<T(!new)>(xs: seq<T>, keep: T -> bool)
    ensures IsSubsequence(Select(xs, keep), xs)
    decreases |xs|
  {
    if xs != [] {
      SelectIsSubsequence(xs[1..], keep);
      var rest := Select(xs[1..], keep);
      if keep(xs[0]) {
        assert ([xs[0]] + rest)[1..] == rest;
      } else if rest != [] {
        assert rest[0] in rest;
      }
    }
  }

  /** A filter that keeps everything returns the list itself. */
  lemma {:induction false} SelectKeepAll<T(!new)>(xs: seq<T>, keep: T -> bool)
    requires forall i :: 0 <= i < |xs| ==> keep(xs[i])
    ensures Select(xs, keep) == xs
    decreases |xs|
  {
    if xs != [] {
      SelectKeepAll(xs[1..], keep);
      assert [xs[0]] + xs[1..] == xs;
    }
  }

  /** Filtering twice with the same predicate is filtering once. */
  lemma SelectIdempotent<T(!new)>(xs: seq<T>, keep: T -> bool)
    ensures Select(Select(xs, keep), keep) == Select(xs, keep)
  {
    var r := Select(xs, keep);
    forall i | 0 <= i < |r| ensures keep(r[i]) {
      assert r[i] in r;
    }
    SelectKeepAll(r, keep);
  }

  /** The number of elements satisfying keep: `xs.filter(keep).length`. */
  function Count<T(!new)>(xs: seq<T>, keep: T -> bool): (r: nat)
    ensures r <= |xs|
  {
    |Select(xs, keep)|
  }
}
