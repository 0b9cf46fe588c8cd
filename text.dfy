/** String primitives shared by the TypeScript client and the Python watcher:
    substring search, splitting on a non-empty separator (JavaScript `split(sep)`
    and Python `str.split(sep)` agree for such separators), whitespace trimming,
    the first whitespace-separated word (Python `str.split()[0]`), truthiness and
    case mapping restricted to ASCII and Latin-1 letters. */
module Text {

  datatype Option<+T> = None | Some(value: T)

  /** JavaScript/Python truthiness of an optional string: present and non-empty. */
  predicate Truthy(o: Option<string>) {
    o.Some? && o.value != ""
  }

  /** `p` occurs in `s` starting at position `i`. */
  predicate OccursAt(s: string, p: string, i: nat) {
    i + |p| <= |s| && s[i..i + |p|] == p
  }

  /** Position of the first occurrence of `p` in `s`, if any. */
  function IndexOf(s: string, p: string): (r: Option<nat>)
    ensures r.Some? ==> OccursAt(s, p, r.value)
    ensures r.Some? ==> forall j :: 0 <= j < r.value ==> !OccursAt(s, p, j)
    ensures r.None? ==> forall j :: 0 <= j <= |s| ==> !OccursAt(s, p, j)
    decreases |s|
  {
    if |p| <= |s| && s[..|p|] == p then
      assert s[0..0 + |p|] == s[..|p|];
      Some(0)
    else if s == [] then
      None
    else
      match IndexOf(s[1..], p)
      case None =>
        forall j | 1 <= j <= |s| ensures !OccursAt(s, p, j) {
          assert !OccursAt(s[1..], p, j - 1);
          if j + |p| <= |s| {
            assert s[1..][j - 1..j - 1 + |p|] == s[j..j + |p|];
          }
        }
        None
      case Some(k) =>
        assert s[1..][k..k + |p|] == s[k + 1..k + 1 + |p|];
        forall j | 1 <= j < k + 1 ensures !OccursAt(s, p, j) {
          assert !OccursAt(s[1..], p, j - 1);
          if j + |p| <= |s| {
            assert s[1..][j - 1..j - 1 + |p|] == s[j..j + |p|];
          }
        }
        Some(k + 1)
  }

  /** An occurrence with none before it is the first. */
  lemma FirstOccurrence(s: string, p: string, j: nat)
    requires OccursAt(s, p, j) && forall k :: 0 <= k < j ==> !OccursAt(s, p, k)
    ensures IndexOf(s, p) == Some(j)
  {
    match IndexOf(s, p)
    case None =>
    case Some(x) =>
  }

  /** A text with no occurrence is searched in vain. */
  lemma NoOccurrence(s: string, p: string)
    requires forall k :: 0 <= k <= |s| ==> !OccursAt(s, p, k)
    ensures IndexOf(s, p) == None
  {
    match IndexOf(s, p)
    case None =>
    case Some(x) =>
  }

  /** JavaScript `s.includes(p)`, Python `p in s`. */
  predicate Contains(s: string, p: string) {
    IndexOf(s, p).Some?
  }

  lemma ContainsAt(s: string, p: string, i: nat)
    requires OccursAt(s, p, i)
    ensures Contains(s, p)
  {
  }

  /** A text that contains `p + q` contains `p`. */
  lemma ContainsPrefixOf(s: string, p: string, q: string)
    requires Contains(s, p + q)
    ensures Contains(s, p)
  {
    var i := IndexOf(s, p + q).value;
    assert s[i..i + |p|] == (p + q)[..|p|];
    ContainsAt(s, p, i);
  }

  /** `c` does not occur in `s`. */
  predicate NoChar(s: string, c: char) {
    forall i :: 0 <= i < |s| ==> s[i] != c
  }

  /** Searching for a one-character text is searching for the character. */
  lemma ContainsChar(s: string, c: char)
    ensures Contains(s, [c]) <==> !NoChar(s, c)
  {
    if Contains(s, [c]) {
      var i := IndexOf(s, [c]).value;
      assert s[i..i + 1] == [c];
      assert s[i] == c;
    } else {
      forall i | 0 <= i < |s| ensures s[i] != c {
        if s[i] == c {
          assert s[i..i + 1] == [c];
          assert OccursAt(s, [c], i);
        }
      }
    }
  }

  /** The pieces of `s` between the occurrences of `sep`, as `s.split(sep)` returns them. */
  function Split(s: string, sep: string): (r: seq<string>)
    requires sep != ""
    ensures |r| >= 1
    ensures Contains(s, sep) <==> |r| >= 2
    decreases |s|
  {
    match IndexOf(s, sep)
    case None => [s]
    case Some(i) => [s[..i]] + Split(s[i + |sep|..], sep)
  }

  /** `pieces.join(sep)`. */
  function Join(pieces: seq<string>, sep: string): string {
    if |pieces| == 0 then ""
    else if |pieces| == 1 then pieces[0]
    else pieces[0] + sep + Join(pieces[1..], sep)
  }

  /** Splitting and joining again gives back the original text. */
  lemma {:induction false} JoinSplit(s: string, sep: string)
    requires sep != ""
    ensures Join(Split(s, sep), sep) == s
    decreases |s|
  {
    match IndexOf(s, sep)
    case None =>
    case Some(i) =>
      var rest := s[i + |sep|..];
      SplitAt(s, sep, i);
      var tail := Split(rest, sep);
      var parts := [s[..i]] + tail;
      assert |parts| >= 2 && parts[0] == s[..i] && parts[1..] == tail;
      assert Join(parts, sep) == s[..i] + sep + Join(tail, sep);
      JoinSplit(rest, sep);
      assert s[i..i + |sep|] == sep;
      assert s == s[..i] + s[i..i + |sep|] + rest;
  }

  /** No piece of a split contains the separator. */
  lemma {:induction false} SplitPiecesFree(s: string, sep: string, k: nat)
    requires sep != "" && k < |Split(s, sep)|
    ensures !Contains(Split(s, sep)[k], sep)
    decreases |s|
  {
    match IndexOf(s, sep)
    case None =>
    case Some(i) =>
      assert Split(s, sep) == [s[..i]] + Split(s[i + |sep|..], sep);
      if k == 0 {
        var head := s[..i];
        assert |head| == i;
        forall j | 0 <= j <= |head| ensures !OccursAt(head, sep, j) {
          if j + |sep| <= |head| {
            assert j < i && !OccursAt(s, sep, j);
            assert head[j..j + |sep|] == s[j..j + |sep|];
          }
        }
      } else {
        SplitPiecesFree(s[i + |sep|..], sep, k - 1);
      }
  }

  /** Piece `k` of the split, or the empty text when there are fewer pieces:
      the callers below only take pieces that exist. */
  function Piece(s: string, sep: string, k: nat): string
    requires sep != ""
  {
    var parts := Split(s, sep);
    if k < |parts| then parts[k] else ""
  }

  /** The first piece is the text before the first separator. */
  lemma FirstPiece(s: string, sep: string)
    requires sep != ""
    ensures Piece(s, sep, 0) == if Contains(s, sep) then s[..IndexOf(s, sep).value] else s
  {
  }

  /** Splitting at the first separator, found at `i`. */
  lemma SplitAt(s: string, sep: string, i: nat)
    requires sep != "" && IndexOf(s, sep) == Some(i)
    ensures Split(s, sep) == [s[..i]] + Split(s[i + |sep|..], sep)
  {
  }

  /** The split is the leftmost one: when there are several pieces, the first
      piece ends where the first occurrence of the separator starts, and no
      occurrence starts inside it. */
  lemma SplitLeftmost(s: string, sep: string)
    requires sep != "" && |Split(s, sep)| >= 2
    ensures OccursAt(s, sep, |Split(s, sep)[0]|)
    ensures forall j :: 0 <= j < |Split(s, sep)[0]| ==> !OccursAt(s, sep, j)
    ensures Split(s, sep)[1..] == Split(s[|Split(s, sep)[0]| + |sep|..], sep)
  {
    var i := IndexOf(s, sep).value;
    SplitAt(s, sep, i);
    assert Split(s, sep)[0] == s[..i];
  }

  /** Splitting on a one-character separator after a prefix free of it: the
      prefix is the first piece, and the text after the separator supplies the
      second. */
  lemma SplitAtChar(pre: string, c: char, post: string)
    requires NoChar(pre, c)
    ensures IndexOf(pre + [c] + post, [c]) == Some(|pre|)
    ensures Piece(pre + [c] + post, [c], 0) == pre
    ensures Piece(pre + [c] + post, [c], 1) == Piece(post, [c], 0)
  {
    var s := pre + [c] + post;
    assert s[|pre|..|pre| + 1] == [c];
    assert OccursAt(s, [c], |pre|);
    forall j | 0 <= j < |pre| ensures !OccursAt(s, [c], j) {
      assert s[j] == pre[j];
      assert s[j..j + 1][0] == s[j];
    }
    match IndexOf(s, [c])
    case None =>
    case Some(j) =>
    assert s[..|pre|] == pre;
    assert s[|pre| + 1..] == post;
  }

  /** The pieces of a text free of `c` are free of `c`. */
  lemma {:induction false} SplitNoChar(s: string, sep: string, c: char, k: nat)
    requires sep != "" && NoChar(s, c) && k < |Split(s, sep)|
    ensures NoChar(Split(s, sep)[k], c)
    decreases |s|
  {
    match IndexOf(s, sep)
    case None =>
    case Some(i) =>
      var rest := s[i + |sep|..];
      assert Split(s, sep) == [s[..i]] + Split(rest, sep);
      if k == 0 {
        forall j | 0 <= j < i ensures s[..i][j] != c {
          assert s[..i][j] == s[j];
        }
      } else {
        forall j | 0 <= j < |rest| ensures rest[j] != c {
          assert rest[j] == s[i + |sep| + j];
        }
        SplitNoChar(rest, sep, c, k - 1);
        assert Split(s, sep)[k] == Split(rest, sep)[k - 1];
      }
  }

  /** Whitespace as recognised by JavaScript `trim` and Python `strip`/`split()`,
      restricted to ASCII whitespace and the no-break space. */
  predicate IsSpace(c: char) {
    c == ' ' || c == '\t' || c == '\n' || c == '\r' || c == '\U{B}' || c == '\U{C}' || c == '\U{A0}'
  }

  function TrimEnd(s: string): (r: string)
    ensures |r| <= |s| && r == s[..|r|]
    ensures r == [] || !IsSpace(r[|r| - 1])
    ensures forall i :: |r| <= i < |s| ==> IsSpace(s[i])
  {
    if s != [] && IsSpace(s[|s| - 1]) then TrimEnd(s[..|s| - 1]) else s
  }

  /** JavaScript `trim()`, Python `strip()`: `s` loses its leading and
      trailing spaces and nothing else, so the result is the slice of `s`
      after the leading spaces, followed in `s` only by spaces, and it neither
      starts nor ends with a space. */
  function Trim(s: string): (r: string)
    ensures r == [] || (!IsSpace(r[0]) && !IsSpace(r[|r| - 1]))
    ensures var k := LeadingSpaces(s);
      k + |r| <= |s| && r == s[k..k + |r|] && forall i :: k + |r| <= i < |s| ==> IsSpace(s[i])
  {
    var k := LeadingSpaces(s);
    var r := TrimEnd(s[k..]);
    assert r == s[k..k + |r|];
    assert r != [] ==> r[0] == s[k];
    forall i | k + |r| <= i < |s| ensures IsSpace(s[i]) {
      assert s[i] == s[k..][i - k];
    }
    r
  }

  /** Trimming is idempotent. */
  lemma TrimIdempotent(s: string)
    ensures Trim(Trim(s)) == Trim(s)
  {
    TrimUnchanged(Trim(s));
  }

  /** Text with no space at either end is its own trim. */
  lemma TrimUnchanged(s: string)
    requires s == [] || (!IsSpace(s[0]) && !IsSpace(s[|s| - 1]))
    ensures Trim(s) == s
  {
  }

  /** Length of the leading run of non-space characters. */
  function WordLength(s: string): (n: nat)
    ensures n <= |s|
    ensures forall i :: 0 <= i < n ==> !IsSpace(s[i])
    ensures n == |s| || IsSpace(s[n])
  {
    if s == [] || IsSpace(s[0]) then 0 else 1 + WordLength(s[1..])
  }

  /** Number of leading spaces of `s`. */
  function LeadingSpaces(s: string): (k: nat)
    ensures k <= |s| && (forall i :: 0 <= i < k ==> IsSpace(s[i]))
    ensures k == |s| || !IsSpace(s[k])
  {
    if s != [] && IsSpace(s[0]) then 1 + LeadingSpaces(s[1..]) else 0
  }

  /** Python `s.split()[0]`: the first maximal run of non-space characters,
      which starts after the leading spaces and ends at a space or at the end;
      None where Python raises IndexError (only whitespace, or nothing). */
  function FirstWord(s: string): (r: Option<string>)
    ensures r.None? <==> forall i :: 0 <= i < |s| ==> IsSpace(s[i])
    ensures r.Some? ==> var k := LeadingSpaces(s);
      r.value != [] && k + |r.value| <= |s| && r.value == s[k..k + |r.value|]
      && (forall i :: k <= i < k + |r.value| ==> !IsSpace(s[i]))
      && (k + |r.value| == |s| || IsSpace(s[k + |r.value|]))
  {
    var k := LeadingSpaces(s);
    if k == |s| then None
    else
      var n := WordLength(s[k..]);
      assert n > 0 by { assert s[k..][0] == s[k]; }
      assert s[k..][..n] == s[k..k + n];
      forall i | k <= i < k + n ensures !IsSpace(s[i]) {
        assert s[i] == s[k..][i - k];
      }
      assert k + n < |s| ==> s[k + n] == s[k..][n];
      Some(s[k..k + n])
  }

  /** Lower-casing of one character: ASCII capitals and the Latin-1 capitals
      U+00C0 to U+00DE (except the multiplication sign U+00D7). */
  function LowerChar(c: char): char {
    if 'A' <= c <= 'Z' || ('À' <= c <= 'Þ' && c != '×') then
      (c as int + 32) as char
    else c
  }

  /** Upper-casing of one character, the inverse of `LowerChar` on letters. */
  function UpperChar(c: char): char {
    if 'a' <= c <= 'z' || ('à' <= c <= 'þ' && c != '÷') then
      (c as int - 32) as char
    else c
  }

  /** JavaScript `toLowerCase`, Python `lower`, on the letters above. */
  function Lower(s: string): (r: string)
    ensures |r| == |s| && forall i :: 0 <= i < |s| ==> r[i] == LowerChar(s[i])
  {
    seq(|s|, i requires 0 <= i < |s| => LowerChar(s[i]))
  }

  /** JavaScript `toUpperCase`, Python `upper`, on the letters above. */
  function Upper(s: string): (r: string)
    ensures |r| == |s| && forall i :: 0 <= i < |s| ==> r[i] == UpperChar(s[i])
  {
    seq(|s|, i requires 0 <= i < |s| => UpperChar(s[i]))
  }

  /** Lower-casing forgets an upper-casing. */
  lemma LowerUpper(s: string)
    ensures Lower(Upper(s)) == Lower(s)
  {
  }

  /** Lower-casing is idempotent. */
  lemma LowerIdempotent(s: string)
    ensures Lower(Lower(s)) == Lower(s)
  {
  }
}
