/**
 The comment-stripping preprocessor of `JSONWithCommentsDecoder.decode`: split
 the text on line feeds, drop the full comment lines, cut every remaining line
 before its first `//`, and join the lines back with line feeds. Stripping
 knows nothing of JSON string literals, so a `//` inside a string is cut as a
 comment too.
 */
module CommentStripping {
  import opened Lines
  import opened Comments

  /** The line separator the text is split on and joined with. */
  const Newline: char := '\n'

  /** The lines that are not full comment lines, in their original order. */
  function DropFullComments(lines: seq<string>): (kept: seq<string>)
    ensures |kept| <= |lines|
    ensures forall j :: 0 <= j < |kept| ==> !IsFullComment(kept[j])
  {
    if |lines| == 0 then []
    else
      var rest := DropFullComments(lines[1..]);
      if IsFullComment(lines[0]) then rest
      else
        var kept := [lines[0]] + rest;
        assert forall j :: 1 <= j < |kept| ==> kept[j] == rest[j - 1];
        kept
  }

  /** Every kept line is one of the input lines. */
  lemma {:induction false} KeptAreInputLines(lines: seq<string>)
    ensures forall j :: 0 <= j < |DropFullComments(lines)| ==> DropFullComments(lines)[j] in lines
  {
    if |lines| > 0 {
      KeptAreInputLines(lines[1..]);
      var rest := DropFullComments(lines[1..]);
      assert forall j :: 0 <= j < |rest| ==> rest[j] in lines[1..];
      assert forall x :: x in lines[1..] ==> x in lines;
    }
  }

  /** Without full comment lines nothing is dropped. */
  lemma {:induction false} NothingDroppedWithoutComments(lines: seq<string>)
    requires forall i :: 0 <= i < |lines| ==> !IsFullComment(lines[i])
    ensures DropFullComments(lines) == lines
  {
    if |lines| > 0 {
      assert forall i :: 0 <= i < |lines[1..]| ==> lines[1..][i] == lines[i + 1];
      NothingDroppedWithoutComments(lines[1..]);
      assert lines == [lines[0]] + lines[1..];
    }
  }

  /** Every line cut before its first marker: each result line is a
      marker-free prefix of the line at the same position, and where a line
      was cut, its first marker starts right at the cut. */
  function TruncateAll(lines: seq<string>): (out: seq<string>)
    ensures |out| == |lines|
    ensures forall i :: 0 <= i < |out| ==>
      |out[i]| <= |lines[i]| && out[i] == lines[i][..|out[i]|] && !ContainsMarker(out[i])
    ensures forall i :: 0 <= i < |out| ==>
      (forall k :: 0 <= k < |out[i]| ==> !MarkerAt(lines[i], k)) &&
      (|out[i]| < |lines[i]| ==> MarkerAt(lines[i], |out[i]|))
  {
    seq(|lines|, i requires 0 <= i < |lines| => Truncate(lines[i]))
  }

  /** The lines of the stripped text, before they are joined. */
  function StripLines(lines: seq<string>): seq<string>
  {
    TruncateAll(DropFullComments(lines))
  }

  /** The comment-stripped text that is handed to the JSON decoder. It holds
      no marker at all, it is never longer than the input, and an input with no
      marker passes through unchanged. */
  function Strip(s: string): (r: string)
    ensures !ContainsMarker(r)
    ensures |r| <= |s|
    ensures !ContainsMarker(s) ==> r == s
  {
    var lines := Split(s, Newline);
    var out := StripLines(lines);
    JoinKeepsNoMarker(out, Newline);
    StripLinesNotLonger(lines, Newline);
    JoinSplit(s, Newline);
    CommentFreeLinesUnchanged(s);
    Join(out, Newline)
  }

  /** Truncating a list of lines one line at a time. */
  lemma TruncateAllCons(line: string, rest: seq<string>)
    ensures TruncateAll([line] + rest) == [Truncate(line)] + TruncateAll(rest)
  {
    var a := TruncateAll([line] + rest);
    var b := [Truncate(line)] + TruncateAll(rest);
    forall i | 0 <= i < |a| ensures a[i] == b[i] {
      if i > 0 {
        assert ([line] + rest)[i] == rest[i - 1];
      }
    }
  }

  /** One step of `StripLines`: a full comment line contributes no line at all,
      not even an empty one; any other line contributes its truncation. */
  lemma StripLinesCons(line: string, rest: seq<string>)
    ensures IsFullComment(line) ==> StripLines([line] + rest) == StripLines(rest)
    ensures !IsFullComment(line) ==>
      StripLines([line] + rest) == [Truncate(line)] + StripLines(rest)
  {
    assert ([line] + rest)[1..] == rest;
    if !IsFullComment(line) {
      assert DropFullComments([line] + rest) == [line] + DropFullComments(rest);
      TruncateAllCons(line, DropFullComments(rest));
    }
  }

  /** Joining marker-free lines with a separator that is not `/` cannot form a
      marker across a line boundary. */
  lemma {:induction false} JoinKeepsNoMarker(lines: seq<string>, sep: char)
    requires sep != '/'
    requires forall i :: 0 <= i < |lines| ==> !ContainsMarker(lines[i])
    ensures !ContainsMarker(Join(lines, sep))
  {
    if |lines| > 1 {
      var rest := lines[1..];
      JoinKeepsNoMarker(rest, sep);
      JoinCons(lines[0], rest, sep);
      assert lines == [lines[0]] + rest;
      NoMarkerAcrossSeparator(lines[0], Join(rest, sep), sep);
    }
  }

  /** A marker in `a + [sep] + b`, for a separator that is not `/`, lies
      wholly inside `a` or wholly inside `b`. */
  lemma NoMarkerAcrossSeparator(a: string, b: string, sep: char)
    requires sep != '/'
    requires !ContainsMarker(a) && !ContainsMarker(b)
    ensures !ContainsMarker(a + [sep] + b)
  {
    if ContainsMarker(a + [sep] + b) {
      var i :| MarkerAt(a + [sep] + b, i);
      MarkerBesideSeparator(a, b, sep, i);
    }
  }

  /** Where a marker of `a + [sep] + b` sits, for a separator that is not `/`. */
  lemma MarkerBesideSeparator(a: string, b: string, sep: char, i: int)
    requires sep != '/'
    requires MarkerAt(a + [sep] + b, i)
    ensures MarkerAt(a, i) || MarkerAt(b, i - |a| - 1)
  {
    var w := a + [sep] + b;
    if i + 1 < |a| {
      assert w[i] == a[i] && w[i + 1] == a[i + 1];
    } else {
      assert w[i] == b[i - |a| - 1] && w[i + 1] == b[i - |a|];
    }
  }

  /** A marker in one of the lines is a marker in their join. */
  lemma {:induction false} MarkerInLineIsInJoin(lines: seq<string>, sep: char, i: nat)
    requires i < |lines| && ContainsMarker(lines[i])
    ensures ContainsMarker(Join(lines, sep))
  {
    var k :| MarkerAt(lines[i], k);
    if |lines| > 1 {
      var rest := lines[1..];
      JoinCons(lines[0], rest, sep);
      assert lines == [lines[0]] + rest;
      var w := Join(lines, sep);
      if i == 0 {
        assert MarkerAt(w, k);
      } else {
        assert lines[i] == rest[i - 1];
        MarkerInLineIsInJoin(rest, sep, i - 1);
        var k' :| MarkerAt(Join(rest, sep), k');
        assert MarkerAt(w, |lines[0]| + 1 + k');
      }
    }
  }

  /** Stripping never lengthens the joined text: dropping a line also drops a
      separator, and truncating a line only shortens it. */
  lemma {:induction false} StripLinesNotLonger(lines: seq<string>, sep: char)
    ensures |Join(StripLines(lines), sep)| <= |Join(lines, sep)|
  {
    if |lines| > 0 {
      var rest := lines[1..];
      assert lines == [lines[0]] + rest;
      StripLinesCons(lines[0], rest);
      var r := StripLines(rest);
      if !IsFullComment(lines[0]) && |r| > 0 {
        JoinCons(Truncate(lines[0]), r, sep);
      }
      if |rest| > 0 {
        StripLinesNotLonger(rest, sep);
        JoinCons(lines[0], rest, sep);
      }
    }
  }

  /** A text without markers splits into lines that are all kept and left
      whole. */
  lemma CommentFreeLinesUnchanged(s: string)
    ensures !ContainsMarker(s) ==> StripLines(Split(s, Newline)) == Split(s, Newline)
  {
    if !ContainsMarker(s) {
      CommentFreeLinesKept(s);
    }
  }

  /** The lines of a marker-free text hold no marker, so none is a full
      comment line and none is cut. */
  lemma CommentFreeLinesKept(s: string)
    requires !ContainsMarker(s)
    ensures StripLines(Split(s, Newline)) == Split(s, Newline)
  {
    var lines := Split(s, Newline);
    JoinSplit(s, Newline);
    forall i | 0 <= i < |lines| ensures !ContainsMarker(lines[i]) && !IsFullComment(lines[i]) {
      if ContainsMarker(lines[i]) {
        MarkerInLineIsInJoin(lines, Newline, i);
      }
      if IsFullComment(lines[i]) {
        FullCommentContainsMarker(lines[i]);
      }
    }
    NothingDroppedWithoutComments(lines);
    var out := TruncateAll(lines);
    forall i | 0 <= i < |lines| ensures out[i] == lines[i] {
    }
  }

  /** Stripping is idempotent: a second pass finds no comment left. */
  lemma StripIdempotent(s: string)
    ensures Strip(Strip(s)) == Strip(s)
  {
  }

  /** The lines of the stripped text are exactly the stripped lines: when no
      line survives the text is empty, and otherwise splitting the stripped
      text gives back the surviving, truncated lines. */
  lemma StripLinesOfOutput(s: string)
    ensures StripLines(Split(s, Newline)) == [] ==> Strip(s) == ""
    ensures StripLines(Split(s, Newline)) != [] ==>
      Split(Strip(s), Newline) == StripLines(Split(s, Newline))
  {
    var lines := Split(s, Newline);
    var kept := DropFullComments(lines);
    var out := StripLines(lines);
    KeptAreInputLines(lines);
    forall j | 0 <= j < |out| ensures Newline !in out[j] {
      assert kept[j] in lines;
      assert out[j] == kept[j][..|out[j]|];
    }
    if out != [] {
      SplitJoin(out, Newline);
    }
  }

  /** How many of the first `i` lines are not full comment lines: the
      position in the output of a kept line `i`. */
  function KeptBefore(lines: seq<string>, i: nat): (n: nat)
    requires i <= |lines|
    ensures n <= i
  {
    if i == 0 then 0
    else (if IsFullComment(lines[0]) then 0 else 1) + KeptBefore(lines[1..], i - 1)
  }

  /** Kept lines keep their relative order: a kept line lands before every
      later kept line. */
  lemma {:induction false} KeptBeforeIncreasing(lines: seq<string>, i: nat, j: nat)
    requires i < j <= |lines| && !IsFullComment(lines[i])
    ensures KeptBefore(lines, i) < KeptBefore(lines, j)
  {
    if i > 0 {
      KeptBeforeIncreasing(lines[1..], i - 1, j - 1);
    } else {
      assert KeptBefore(lines, j) >= 1;
    }
  }

  /** The filter keeps every line that is not a full comment line, one for one
      and in order: kept line `i` lands at position `KeptBefore(lines, i)`, and
      there are exactly as many kept lines as non-comment input lines. */
  lemma {:induction false} DropPlacement(lines: seq<string>)
    ensures |DropFullComments(lines)| == KeptBefore(lines, |lines|)
    ensures forall i :: 0 <= i < |lines| && !IsFullComment(lines[i]) ==>
      KeptBefore(lines, i) < |DropFullComments(lines)| &&
      DropFullComments(lines)[KeptBefore(lines, i)] == lines[i]
  {
    if |lines| > 0 {
      var rest := lines[1..];
      DropPlacement(rest);
      var kept := DropFullComments(lines);
      var r := DropFullComments(rest);
      var c := if IsFullComment(lines[0]) then 0 else 1;
      assert kept == (if c == 1 then [lines[0]] + r else r);
      forall i | 0 <= i < |lines| && !IsFullComment(lines[i])
        ensures KeptBefore(lines, i) < |kept| && kept[KeptBefore(lines, i)] == lines[i]
      {
        if i > 0 {
          var k := KeptBefore(rest, i - 1);
          assert lines[i] == rest[i - 1];
          assert KeptBefore(lines, i) == c + k;
          assert k < |r| && r[k] == rest[i - 1];
          if c == 1 {
            assert kept[c + k] == r[k];
          }
        }
      }
    }
  }

  /** Order and count: the stripped lines are the truncations of the kept
      lines, one for one and in order. Kept line `i` becomes output line
      `KeptBefore(lines, i)`, and there are as many output lines as kept
      lines, so never more than input lines. */
  lemma {:induction false} StripLinesPlacement(lines: seq<string>)
    ensures |StripLines(lines)| == KeptBefore(lines, |lines|) <= |lines|
    ensures forall i :: 0 <= i < |lines| && !IsFullComment(lines[i]) ==>
      KeptBefore(lines, i) < |StripLines(lines)| &&
      StripLines(lines)[KeptBefore(lines, i)] == Truncate(lines[i])
  {
    if |lines| > 0 {
      var rest := lines[1..];
      assert lines == [lines[0]] + rest;
      StripLinesPlacement(rest);
      StripLinesCons(lines[0], rest);
      var out := StripLines(lines);
      var r := StripLines(rest);
      var c := if IsFullComment(lines[0]) then 0 else 1;
      forall i | 0 <= i < |lines| && !IsFullComment(lines[i])
        ensures KeptBefore(lines, i) < |out| && out[KeptBefore(lines, i)] == Truncate(lines[i])
      {
        if i > 0 {
          var k := KeptBefore(rest, i - 1);
          assert lines[i] == rest[i - 1];
          assert KeptBefore(lines, i) == c + k;
          assert k < |r| && r[k] == Truncate(rest[i - 1]);
          if c == 1 {
            assert out == [Truncate(lines[0])] + r;
            assert out[c + k] == r[k];
          } else {
            assert out == r;
          }
        }
      }
    }
  }

  /** A full comment line at the front of the text disappears together with
      its line feed. */
  lemma FullCommentLineVanishes(line: string, rest: string)
    requires Newline !in line && IsFullComment(line)
    ensures Strip(line + [Newline] + rest) == Strip(rest)
  {
    SplitAround(line, rest, Newline);
    SplitWithoutSeparator(line, Newline);
    StripLinesCons(line, Split(rest, Newline));
  }

  /** Any other line at the front of the text is cut before its first marker,
      and stays separated by a line feed from what follows, if anything does. */
  lemma KeptLineTruncated(line: string, rest: string)
    requires Newline !in line && !IsFullComment(line)
    ensures StripLines(Split(rest, Newline)) == [] ==>
      Strip(line + [Newline] + rest) == Truncate(line)
    ensures StripLines(Split(rest, Newline)) != [] ==>
      Strip(line + [Newline] + rest) == Truncate(line) + [Newline] + Strip(rest)
  {
    SplitAround(line, rest, Newline);
    SplitWithoutSeparator(line, Newline);
    StripLinesCons(line, Split(rest, Newline));
    var r := StripLines(Split(rest, Newline));
    if r != [] {
      JoinCons(Truncate(line), r, Newline);
    }
  }

  /** A text of one line is dropped when it is a full comment line and cut
      before its first marker otherwise. */
  lemma StripSingleLine(line: string)
    requires Newline !in line
    ensures IsFullComment(line) ==> StripLines(Split(line, Newline)) == [] && Strip(line) == ""
    ensures !IsFullComment(line) ==> Strip(line) == Truncate(line)
  {
    SplitWithoutSeparator(line, Newline);
    StripLinesCons(line, []);
  }

  /** A text whose first character is neither whitespace, nor `/`, nor a line
      feed keeps that first character: its first line is kept and cannot be
      cut before its first character. */
  lemma StripKeepsFirstCharacter(s: string)
    requires |s| > 0 && !IsWhitespace(s[0]) && s[0] != '/' && s[0] != Newline
    ensures |Strip(s)| > 0 && Strip(s)[0] == s[0]
  {
    var lines := Split(s, Newline);
    var first := lines[0];
    assert first == [s[0]] + Split(s[1..], Newline)[0];
    assert lines == [first] + lines[1..];
    NotFullCommentByFirstCharacter(first);
    StripLinesCons(first, lines[1..]);
    var t := Truncate(first);
    assert |t| > 0;
    assert t[0] == s[0];
    var r := StripLines(lines[1..]);
    if |r| > 0 {
      JoinCons(t, r, Newline);
    }
  }
}
