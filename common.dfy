// Shared building blocks: optional values and results, the string operations
// the client and the server rely on (trim, lower-case, substring search,
// decimal rendering) and the HTTP error shape of the backend.

module Wrappers {

  datatype Option<+T> = None | Some(value: T) {
    function GetOr(default: T): T {
      match this
      case Some(v) => v
      case None => default
    }
  }

  datatype Result<+T, +E> = Success(value: T) | Failure(error: E)
}

module Text {

  /** The language whose string functions are meant: trim and the blank
      test differ between the client and the server. */
  datatype Runtime = JavaScript | Python

  /** The characters `String.prototype.trim` removes (ECMAScript WhiteSpace
      and LineTerminator) and those `str.strip` removes (`str.isspace`).
      Both hold the ASCII controls 9 to 13, the space and the Unicode space
      separators; Python adds the separators 0x1C to 0x1F and NEL,
      JavaScript adds the byte-order mark. */
  function Spaces(rt: Runtime): set<char> {
    var shared := {'\t', '\n', '\U{000B}', '\U{000C}', '\r', ' ', '\U{00A0}', '\U{1680}',
                   '\U{2000}', '\U{2001}', '\U{2002}', '\U{2003}', '\U{2004}', '\U{2005}',
                   '\U{2006}', '\U{2007}', '\U{2008}', '\U{2009}', '\U{200A}',
                   '\U{2028}', '\U{2029}', '\U{202F}', '\U{205F}', '\U{3000}'};
    if rt == JavaScript then shared + {'\U{FEFF}'}
    else shared + {'\U{001C}', '\U{001D}', '\U{001E}', '\U{001F}', '\U{0085}'}
  }

  /** Every character of s belongs to ws. */
  predicate AllIn(s: string, ws: set<char>) {
    forall i :: 0 <= i < |s| ==> s[i] in ws
  }

  /** A string that trims to the empty string. */
  predicate IsBlank(s: string, rt: Runtime) {
    AllIn(s, Spaces(rt))
  }

  /** Leading characters of ws removed: what remains is a suffix of s that
      starts outside ws, and everything cut off is in ws. */
  function TrimStart(s: string, ws: set<char>): (r: string)
    ensures |r| <= |s| && r == s[|s| - |r|..]
    ensures r == [] || r[0] !in ws
    ensures AllIn(s[..|s| - |r|], ws)
    decreases |s|
  {
    if s != [] && s[0] in ws then TrimStart(s[1..], ws) else s
  }

  /** Trailing characters of ws removed. */
  function TrimEnd(s: string, ws: set<char>): (r: string)
    ensures |r| <= |s| && r == s[..|r|]
    ensures r == [] || r[|r| - 1] !in ws
    ensures AllIn(s[|r|..], ws)
    decreases |s|
  {
    if s != [] && s[|s| - 1] in ws then
      var r := TrimEnd(s[..|s| - 1], ws);
      DropTrailing(s, |r|, ws);
      r
    else s
  }

  /** One more trailing character of ws keeps a tail in ws. */
  lemma DropTrailing(s: string, n: nat, ws: set<char>)
    requires s != [] && s[|s| - 1] in ws
    requires n <= |s| - 1 && AllIn(s[..|s| - 1][n..], ws)
    ensures s[..|s| - 1][..n] == s[..n] && AllIn(s[n..], ws)
  {
    forall i | n <= i < |s| ensures s[i] in ws {
      if i < |s| - 1 {
        assert s[..|s| - 1][n..][i - n] == s[i];
      }
    }
  }

  /** Both ends stripped of the characters in ws. */
  function Strip(s: string, ws: set<char>): string {
    TrimEnd(TrimStart(s, ws), ws)
  }

  /** `s.trim()` in JavaScript, `s.strip()` in Python. */
  function Trim(s: string, rt: Runtime): string {
    Strip(s, Spaces(rt))
  }

  /** A string strips to "" exactly when all of it is in ws. */
  lemma TrimEmptyIffBlank(s: string, ws: set<char>)
    ensures Strip(s, ws) == [] <==> AllIn(s, ws)
  {
    var t := TrimStart(s, ws);
    if Strip(s, ws) == [] {
      assert t == [];
      assert s[..|s|] == s;
    } else {
      var r := Strip(s, ws);
      assert r[0] !in ws;
      assert r == t[..|r|];
      assert t == s[|s| - |t|..];
      assert s[|s| - |t|] == r[0];
    }
  }

  /** Stripping is idempotent. */
  lemma TrimIdempotent(s: string, ws: set<char>)
    ensures Strip(Strip(s, ws), ws) == Strip(s, ws)
  {
    var r := Strip(s, ws);
    if r != [] {
      assert r[0] !in ws && r[|r| - 1] !in ws;
    }
  }

  /** The reference meaning of stripping: r sits in s between two runs of
      characters of ws and neither starts nor ends with one itself. */
  ghost predicate IsTrimOf(r: string, s: string, ws: set<char>) {
    (r == [] || (r[0] !in ws && r[|r| - 1] !in ws))
    && exists k :: OccursAt(s, r, k) && AllIn(s[..k], ws) && AllIn(s[k + |r|..], ws)
  }

  /** Strip has the reference meaning. */
  lemma TrimMeetsSpec(s: string, ws: set<char>)
    ensures IsTrimOf(Strip(s, ws), s, ws)
  {
    var k := |s| - |TrimStart(s, ws)|;
    var r := Strip(s, ws);
    StrippedOccurs(s, ws);
    StrippedTail(s, ws);
    assert OccursAt(s, r, k) && AllIn(s[..k], ws) && AllIn(s[k + |r|..], ws);
  }

  /** The stripped text sits in s right after the leading run of ws ... */
  lemma StrippedOccurs(s: string, ws: set<char>)
    ensures OccursAt(s, Strip(s, ws), |s| - |TrimStart(s, ws)|)
  {
    var t := TrimStart(s, ws);
    var r := TrimEnd(t, ws);
    SliceOfSuffix(s, t, |s| - |t|, |r|);
  }

  /** A prefix of a suffix is a slice. */
  lemma SliceOfSuffix(s: string, t: string, k: nat, n: nat)
    requires k <= |s| && t == s[k..] && n <= |t|
    ensures s[k..k + n] == t[..n]
  {
  }

  /** ... and is followed by characters of ws only. */
  lemma StrippedTail(s: string, ws: set<char>)
    ensures AllIn(s[|s| - |TrimStart(s, ws)| + |Strip(s, ws)|..], ws)
  {
    var t := TrimStart(s, ws);
    var r := TrimEnd(t, ws);
    SuffixOfSuffix(s, t, |s| - |t|, |r|);
  }

  /** A suffix of a suffix is a suffix. */
  lemma SuffixOfSuffix(s: string, t: string, k: nat, n: nat)
    requires k <= |s| && t == s[k..] && n <= |t|
    ensures s[k + n..] == t[n..]
  {
  }

  /** Trimming the start stops at the first character outside ws. */
  lemma TrimStartAt(s: string, k: nat, ws: set<char>)
    requires k < |s| && s[k] !in ws && AllIn(s[..k], ws)
    ensures TrimStart(s, ws) == s[k..]
  {
    var t := TrimStart(s, ws);
    var m := |s| - |t|;
    forall i | 0 <= i < m ensures s[i] in ws {
      assert s[..m][i] == s[i];
    }
    forall i | 0 <= i < k ensures s[i] in ws {
      assert s[..k][i] == s[i];
    }
    assert m < |s| ==> s[m] == t[0];
    assert m == k;
  }

  /** Trimming the end stops after the last character outside ws. */
  lemma TrimEndAt(t: string, n: nat, ws: set<char>)
    requires 0 < n <= |t| && t[n - 1] !in ws && AllIn(t[n..], ws)
    ensures TrimEnd(t, ws) == t[..n]
  {
    var u := TrimEnd(t, ws);
    var m := |u|;
    forall i | m <= i < |t| ensures t[i] in ws {
      assert t[m..][i - m] == t[i];
    }
    forall i | n <= i < |t| ensures t[i] in ws {
      assert t[n..][i - n] == t[i];
    }
    assert m > 0 ==> t[m - 1] == u[m - 1];
    assert m == n;
  }

  /** And it is the only string with that meaning. */
  lemma TrimIsUnique(s: string, r: string, ws: set<char>)
    requires IsTrimOf(r, s, ws)
    ensures r == Strip(s, ws)
  {
    var k :| OccursAt(s, r, k) && AllIn(s[..k], ws) && AllIn(s[k + |r|..], ws);
    if r == [] {
      BlankAround(s, k, ws);
      TrimEmptyIffBlank(s, ws);
    } else {
      TrimAround(s, r, k, ws);
    }
  }

  /** Characters of ws before and after offset k make all of s. */
  lemma BlankAround(s: string, k: nat, ws: set<char>)
    requires k <= |s| && AllIn(s[..k], ws) && AllIn(s[k..], ws)
    ensures AllIn(s, ws)
  {
    forall i | 0 <= i < |s| ensures s[i] in ws {
      if i < k {
        assert s[..k][i] == s[i];
      } else {
        assert s[k..][i - k] == s[i];
      }
    }
  }

  /** A non-empty r that starts and ends outside ws and sits between two
      runs of ws is what stripping leaves. */
  lemma TrimAround(s: string, r: string, k: nat, ws: set<char>)
    requires r != [] && r[0] !in ws && r[|r| - 1] !in ws
    requires OccursAt(s, r, k) && AllIn(s[..k], ws) && AllIn(s[k + |r|..], ws)
    ensures Strip(s, ws) == r
  {
    assert s[k] == r[0];
    TrimStartAt(s, k, ws);
    var t := s[k..];
    assert t[..|r|] == r;
    assert t[|r|..] == s[k + |r|..];
    TrimEndAt(t, |r|, ws);
  }

  function LowerChar(c: char): char {
    if 'A' <= c <= 'Z' then (c as int + 32) as char else c
  }

  /** `toLowerCase()`, restricted to the ASCII letters. */
  function Lower(s: string): (r: string)
    ensures |r| == |s|
  {
    seq(|s|, i requires 0 <= i < |s| => LowerChar(s[i]))
  }

  lemma LowerIdempotent(s: string)
    ensures Lower(Lower(s)) == Lower(s)
  {
  }

  /** `hay.includes(needle)` / `needle in hay`, written the way the search
      runs: a prefix test at every position. */
  function Includes(hay: string, needle: string): bool
    decreases |hay|
  {
    needle <= hay || (hay != [] && Includes(hay[1..], needle))
  }

  /** The reference meaning of substring: needle occurs at some offset. */
  ghost predicate OccursAt(hay: string, needle: string, k: int) {
    0 <= k && k + |needle| <= |hay| && hay[k..k + |needle|] == needle
  }

  /** needle occurs somewhere in hay. */
  ghost predicate Contains(hay: string, needle: string) {
    exists k :: OccursAt(hay, needle, k)
  }

  lemma {:induction false} IncludesIffOccurs(hay: string, needle: string)
    ensures Includes(hay, needle) <==> exists k :: OccursAt(hay, needle, k)
    decreases |hay|
  {
    if needle <= hay {
      assert OccursAt(hay, needle, 0);
    } else if hay == [] {
    } else {
      IncludesIffOccurs(hay[1..], needle);
      if exists k :: OccursAt(hay[1..], needle, k) {
        var k :| OccursAt(hay[1..], needle, k);
        assert hay[1..][k..k + |needle|] == hay[k + 1..k + 1 + |needle|];
        assert OccursAt(hay, needle, k + 1);
      }
      if exists k :: OccursAt(hay, needle, k) {
        var k :| OccursAt(hay, needle, k);
        assert k != 0;
        assert hay[1..][k - 1..k - 1 + |needle|] == hay[k..k + |needle|];
        assert OccursAt(hay[1..], needle, k - 1);
      }
    }
  }

  predicate IsDigit(c: char) {
    '0' <= c <= '9'
  }

  predicate AllDigits(s: string) {
    forall i :: 0 <= i < |s| ==> IsDigit(s[i])
  }

  function DigitChar(d: nat): (c: char)
    requires d < 10
    ensures IsDigit(c) && c as int - '0' as int == d
  {
    (d + '0' as int) as char
  }

  /** The decimal rendering of a non-negative number, as `String(n)` and
      template literals produce it. */
  function NatToString(n: nat): (r: string)
    ensures 1 <= |r| && AllDigits(r)
    decreases n
  {
    if n < 10 then [DigitChar(n)] else NatToString(n / 10) + [DigitChar(n % 10)]
  }

  /** The value of a string of decimal digits. */
  function ParseDigits(s: string): nat
    requires AllDigits(s)
    decreases |s|
  {
    if s == [] then 0 else ParseDigits(s[..|s| - 1]) * 10 + (s[|s| - 1] as int - '0' as int)
  }

  /** Rendering a number and reading it back gives the number. */
  lemma {:induction false} NatToStringRoundTrip(n: nat)
    ensures ParseDigits(NatToString(n)) == n
    decreases n
  {
    if n >= 10 {
      NatToStringRoundTrip(n / 10);
      var r := NatToString(n);
      assert r[..|r| - 1] == NatToString(n / 10);
    }
  }

  /** The decimal form starts with a zero only for zero itself. */
  lemma {:induction false} NatToStringLeadingZero(n: nat)
    ensures NatToString(n)[0] == '0' <==> n == 0
    decreases n
  {
    if n >= 10 {
      NatToStringLeadingZero(n / 10);
      assert NatToString(n)[0] == NatToString(n / 10)[0];
    }
  }

  /** The index of the last c in s, or -1. */
  function LastIndexOf(s: string, c: char): (r: int)
    ensures -1 <= r < |s|
    ensures r >= 0 ==> s[r] == c
    ensures forall k :: r < k < |s| ==> s[k] != c
    decreases |s|
  {
    if s == [] then -1
    else if s[|s| - 1] == c then |s| - 1
    else LastIndexOf(s[..|s| - 1], c)
  }

  /** `s.padStart(width, fill)`. */
  function PadStart(s: string, width: nat, fill: char): (r: string)
    ensures |r| == if |s| < width then width else |s|
    ensures s == r[|r| - |s|..]
    ensures forall i :: 0 <= i < |r| - |s| ==> r[i] == fill
  {
    if |s| < width then seq(width - |s|, _ => fill) + s else s
  }
}

module Http {

  /** An `HTTPException` raised by a FastAPI route: status code and detail. */
  datatype HttpError = HttpError(status: nat, detail: string)

  const BadRequest: nat := 400
  const Unauthorized: nat := 401
  const NotFound: nat := 404
  const ServerError: nat := 500

  /** What an axios call gives a page back: the response body, or an error
      whose response may carry a `detail` field. */
  datatype Response<+T> = Ok(value: T) | Err(detail: string)
}
