/**
 The per-line notions of the comment syntax: whitespace, Python's `strip`,
 the `//` marker, full comment lines and trailing comments.
 */
module Comments {

  /** The comment marker `//`. `MarkerAt` spells out its two characters;
      `MarkerAtIsMarker` shows the two agree. */
  const Marker: string := "//"

  /** A fixed subset of the whitespace that `strip` removes: space, tab,
      carriage return, vertical tab and form feed. It leaves out U+001C to
      U+001F and all non-ASCII whitespace; a line never holds a line feed. */
  predicate IsWhitespace(c: char)
  {
    c == ' ' || c == '\t' || c == '\r' || c == '\U{B}' || c == '\U{C}'
  }

  /** `s` begins with `prefix`. */
  predicate StartsWith(s: string, prefix: string)
  {
    |prefix| <= |s| && s[..|prefix|] == prefix
  }

  /** A comment marker starts at position `i` of `s`. */
  predicate MarkerAt(s: string, i: int)
  {
    0 <= i && i + 1 < |s| && s[i] == '/' && s[i + 1] == '/'
  }

  /** `MarkerAt` finds exactly the occurrences of `Marker`. */
  lemma MarkerAtIsMarker(s: string, i: int)
    ensures MarkerAt(s, i) <==> 0 <= i && i + |Marker| <= |s| && s[i..i + |Marker|] == Marker
  {
    if 0 <= i && i + |Marker| <= |s| && s[i..i + |Marker|] == Marker {
      assert s[i] == s[i..i + |Marker|][0] && s[i + 1] == s[i..i + |Marker|][1];
    }
  }

  /** `s` holds the comment marker somewhere. */
  ghost predicate ContainsMarker(s: string)
  {
    exists i :: MarkerAt(s, i)
  }

  /** `s` without its leading whitespace, like `s.lstrip()`. */
  function TrimLeft(s: string): string
  {
    if |s| > 0 && IsWhitespace(s[0]) then TrimLeft(s[1..]) else s
  }

  /** `s` without its trailing whitespace, like `s.rstrip()`. */
  function TrimRight(s: string): string
  {
    if |s| > 0 && IsWhitespace(s[|s| - 1]) then TrimRight(s[..|s| - 1]) else s
  }

  /** `s` with both ends trimmed, like `s.strip()`. */
  function Trim(s: string): string
  {
    TrimRight(TrimLeft(s))
  }

  /** `TrimLeft` keeps a suffix of `s` that is empty or begins with a
      non-whitespace character, and everything it cuts off is whitespace. */
  lemma {:induction false} TrimLeftCutsWhitespace(s: string)
    ensures |TrimLeft(s)| <= |s| && TrimLeft(s) == s[|s| - |TrimLeft(s)|..]
    ensures forall i :: 0 <= i < |s| - |TrimLeft(s)| ==> IsWhitespace(s[i])
    ensures |TrimLeft(s)| > 0 ==> !IsWhitespace(TrimLeft(s)[0])
  {
    if |s| > 0 && IsWhitespace(s[0]) {
      TrimLeftCutsWhitespace(s[1..]);
      assert forall i :: 1 <= i < |s| - |TrimLeft(s)| ==> s[i] == s[1..][i - 1];
    }
  }

  /** `TrimRight` keeps a prefix of `s` that is empty or ends with a
      non-whitespace character, and everything it cuts off is whitespace. */
  lemma {:induction false} TrimRightCutsWhitespace(s: string)
    ensures |TrimRight(s)| <= |s| && TrimRight(s) == s[..|TrimRight(s)|]
    ensures forall i :: |TrimRight(s)| <= i < |s| ==> IsWhitespace(s[i])
    ensures |TrimRight(s)| > 0 ==> !IsWhitespace(TrimRight(s)[|TrimRight(s)| - 1])
  {
    if |s| > 0 && IsWhitespace(s[|s| - 1]) {
      TrimRightCutsWhitespace(s[..|s| - 1]);
    }
  }

  /** `Trim` leaves nothing, or a text that starts and ends with a
      non-whitespace character, and never lengthens its input. */
  lemma TrimEnds(s: string)
    ensures |Trim(s)| <= |s|
    ensures |Trim(s)| > 0 ==> !IsWhitespace(Trim(s)[0]) && !IsWhitespace(Trim(s)[|Trim(s)| - 1])
  {
    TrimLeftCutsWhitespace(s);
    TrimRightCutsWhitespace(TrimLeft(s));
  }

  /** A full comment line: its stripped form starts with the marker, so the
      whole line is dropped. */
  predicate IsFullComment(line: string)
  {
    StartsWith(Trim(line), Marker)
  }

  /** The text of `line` before its first marker, or all of `line` when it has
      none, like `line.split("//", maxsplit=1)[0]`. */
  function Truncate(line: string): (r: string)
    ensures |r| <= |line| && r == line[..|r|]
    ensures forall i :: 0 <= i < |r| ==> !MarkerAt(line, i)
    ensures |r| < |line| ==> MarkerAt(line, |r|)
    ensures !ContainsMarker(r)
    ensures ContainsMarker(line) <==> |r| < |line|
  {
    if |line| < 2 then line
    else if line[0] == '/' && line[1] == '/' then
      assert MarkerAt(line, 0);
      ""
    else
      var rest := Truncate(line[1..]);
      var r := [line[0]] + rest;
      assert forall j :: 1 <= j < |r| ==> !MarkerAt(line, j) by {
        forall j | 1 <= j < |r| ensures !MarkerAt(line, j) {
          assert !MarkerAt(line[1..], j - 1);
        }
      }
      assert |r| < |line| ==> MarkerAt(line, |r|) by {
        if |r| < |line| {
          assert MarkerAt(line[1..], |rest|);
        }
      }
      PrefixKeepsNoMarker(line, r);
      r
  }

  /** A prefix of `s` in which no marker of `s` starts holds no marker. */
  lemma PrefixKeepsNoMarker(s: string, p: string)
    requires |p| <= |s| && p == s[..|p|]
    requires forall i :: 0 <= i < |p| ==> !MarkerAt(s, i)
    ensures !ContainsMarker(p)
  {
    if ContainsMarker(p) {
      var i :| MarkerAt(p, i);
      assert MarkerAt(s, i);
      assert false;
    }
  }

  /** Removing trailing whitespace keeps a leading marker, and cannot create one. */
  lemma TrimRightKeepsMarker(t: string)
    ensures StartsWith(TrimRight(t), Marker) <==> StartsWith(t, Marker)
  {
    var r := TrimRight(t);
    TrimRightCutsWhitespace(t);
    if StartsWith(t, Marker) {
      assert !IsWhitespace(t[1]);
      assert |r| >= 2;
      assert r[..2] == t[..2];
    }
    if StartsWith(r, Marker) {
      assert t[..2] == r[..2];
    }
  }

  /** The marker starts at position `k` of `line` with only whitespace before it. */
  predicate LeadingMarkerAt(line: string, k: int)
  {
    MarkerAt(line, k) && forall i :: 0 <= i < k ==> IsWhitespace(line[i])
  }

  /** After removing leading whitespace the line starts with the marker exactly
      when the marker follows a run of whitespace at the front of the line. */
  lemma TrimLeftMarker(line: string)
    ensures StartsWith(TrimLeft(line), Marker) <==> exists k :: LeadingMarkerAt(line, k)
  {
    var t := TrimLeft(line);
    TrimLeftCutsWhitespace(line);
    var j := |line| - |t|;
    if StartsWith(t, Marker) {
      assert line[j] == t[0] && line[j + 1] == t[1];
      assert LeadingMarkerAt(line, j);
    }
    if exists k :: LeadingMarkerAt(line, k) {
      var k :| LeadingMarkerAt(line, k);
      LeadingMarkerIsTrimmed(line, k);
    }
  }

  /** A marker after leading whitespace is where `TrimLeft` stops. */
  lemma LeadingMarkerIsTrimmed(line: string, k: int)
    requires LeadingMarkerAt(line, k)
    ensures StartsWith(TrimLeft(line), Marker)
  {
    var t := TrimLeft(line);
    TrimLeftCutsWhitespace(line);
    var j := |line| - |t|;
    assert j == k;
    assert t[0] == line[k] && t[1] == line[k + 1];
    assert t[..2] == Marker;
  }

  /** Stripping both ends or only the front makes no difference to whether a
      line starts with the marker: a full comment line is one whose first
      non-whitespace characters are `//`. */
  lemma FullCommentIffLeadingMarker(line: string)
    ensures IsFullComment(line) <==> StartsWith(TrimLeft(line), Marker)
    ensures IsFullComment(line) <==> exists k :: LeadingMarkerAt(line, k)
  {
    TrimRightKeepsMarker(TrimLeft(line));
    TrimLeftMarker(line);
  }

  /** A full comment line holds the marker. */
  lemma FullCommentContainsMarker(line: string)
    requires IsFullComment(line)
    ensures ContainsMarker(line)
  {
    FullCommentIffLeadingMarker(line);
  }

  /** `Truncate` determines its result: the prefix before the first marker. */
  lemma TruncateAtFirstMarker(line: string, k: nat)
    requires MarkerAt(line, k)
    requires forall i :: 0 <= i < k ==> !MarkerAt(line, i)
    ensures Truncate(line) == line[..k]
  {
  }

  /** A line whose first character is neither whitespace nor `/` is not a
      full comment line. */
  lemma NotFullCommentByFirstCharacter(line: string)
    requires |line| > 0 && !IsWhitespace(line[0]) && line[0] != '/'
    ensures !IsFullComment(line)
  {
    FullCommentIffLeadingMarker(line);
  }

  /** A line whose first `/` begins a marker is cut right there. */
  lemma TruncateAtFirstSlash(line: string, k: nat)
    requires MarkerAt(line, k) && '/' !in line[..k]
    ensures Truncate(line) == line[..k]
  {
    forall i | 0 <= i < k ensures !MarkerAt(line, i) {
      assert line[i] == line[..k][i];
    }
    TruncateAtFirstMarker(line, k);
  }

  /** A line without `/` is kept whole. */
  lemma TruncateWithoutSlash(line: string)
    requires '/' !in line
    ensures Truncate(line) == line
  {
  }
}
