/**
 Worked inputs of the comment syntax: a whole comment line, a trailing
 comment, comment lines interleaved with data, and a `//` inside a string
 literal that is cut as a comment too. Facts about the literal lines are
 gathered first; each worked input then strips one line at a time.
 */
module Cases {
  import opened Lines
  import opened Comments
  import opened CommentStripping
  import opened JsonWithComments

  /** A single line that starts with the marker. */
  predicate CommentLine(line: string)
  {
    |line| >= 2 && line[0] == '/' && line[1] == '/' && Newline !in line
  }

  /** A single line that does not start with whitespace or `/`. */
  predicate DataLine(line: string)
  {
    |line| > 0 && !IsWhitespace(line[0]) && line[0] != '/' && Newline !in line
  }

  /** A data line with no `/` at all. */
  predicate PlainLine(line: string)
  {
    DataLine(line) && '/' !in line
  }

  /** The kinds of the literal lines used below. */
  lemma LiteralLines()
    ensures CommentLine("// comment") && CommentLine("// h")
    ensures CommentLine("// mid") && CommentLine("// f")
    ensures PlainLine("{\"a\":1}") && PlainLine("{") && PlainLine("\"a\":1") && PlainLine("}")
    ensures DataLine("{\"a\":1} // note") && DataLine("{\"a\":\"http://x\"}")
  {
  }

  /** A comment line strips to nothing, leaving no line behind. */
  lemma CommentLineVanishes(line: string)
    requires CommentLine(line)
    ensures IsFullComment(line)
    ensures StripLines(Split(line, Newline)) == [] && Strip(line) == ""
  {
    assert LeadingMarkerAt(line, 0);
    FullCommentIffLeadingMarker(line);
    StripSingleLine(line);
  }

  /** A data line strips to its truncation. */
  lemma DataLineTruncated(line: string)
    requires DataLine(line)
    ensures !IsFullComment(line) && Strip(line) == Truncate(line)
  {
    NotFullCommentByFirstCharacter(line);
    StripSingleLine(line);
  }

  /** A plain line passes through stripping whole. */
  lemma PlainLineKept(line: string)
    requires PlainLine(line)
    ensures !IsFullComment(line) && Truncate(line) == line && Strip(line) == line
  {
    DataLineTruncated(line);
    TruncateWithoutSlash(line);
  }

  /** A leading comment line is removed: the decoder is given `{"a":1}`. */
  lemma LeadingCommentLineRemoved<V>(decode: string -> V)
    ensures JsonLoads(decode, "// comment\n{\"a\":1}") == decode("{\"a\":1}")
  {
    LiteralLines();
    assert "// comment\n{\"a\":1}" == "// comment" + [Newline] + "{\"a\":1}";
    CommentLineVanishes("// comment");
    FullCommentLineVanishes("// comment", "{\"a\":1}");
    PlainLineKept("{\"a\":1}");
  }

  /** `{"a":1} // note` is cut at its marker. */
  lemma NoteCut()
    ensures Truncate("{\"a\":1} // note") == "{\"a\":1} "
  {
    var line := "{\"a\":1} // note";
    assert line[..8] == "{\"a\":1} ";
    assert MarkerAt(line, 8);
    TruncateAtFirstSlash(line, 8);
  }

  /** A trailing comment is cut off, and the text before it is kept, down to
      the space before the marker. */
  lemma TrailingCommentCut<V>(decode: string -> V)
    ensures JsonLoads(decode, "{\"a\":1} // note") == decode("{\"a\":1} ")
  {
    LiteralLines();
    DataLineTruncated("{\"a\":1} // note");
    NoteCut();
  }

  /** The last two lines of the interleaved document: a data line and a
      final comment line that leaves no empty line behind. */
  lemma InterleavedTail()
    ensures Strip("}\n// f") == "}"
  {
    LiteralLines();
    assert "}\n// f" == "}" + [Newline] + "// f";
    CommentLineVanishes("// f");
    PlainLineKept("}");
    KeptLineTruncated("}", "// f");
  }

  /** The data line `"a":1` in front of the tail. */
  lemma InterleavedMember()
    ensures Strip("\"a\":1\n}\n// f") == "\"a\":1\n}"
  {
    LiteralLines();
    assert "\"a\":1\n}\n// f" == "\"a\":1" + [Newline] + "}\n// f";
    assert "\"a\":1" + [Newline] + "}" == "\"a\":1\n}";
    InterleavedTail();
    PlainLineKept("\"a\":1");
    KeptLineTruncated("\"a\":1", "}\n// f");
  }

  /** The comment line in the middle vanishes. */
  lemma InterleavedMiddle()
    ensures Strip("// mid\n\"a\":1\n}\n// f") == "\"a\":1\n}"
  {
    LiteralLines();
    assert "// mid\n\"a\":1\n}\n// f" == "// mid" + [Newline] + "\"a\":1\n}\n// f";
    CommentLineVanishes("// mid");
    FullCommentLineVanishes("// mid", "\"a\":1\n}\n// f");
    InterleavedMember();
  }

  /** The opening brace line is kept in front. */
  lemma InterleavedBody()
    ensures Strip("{\n// mid\n\"a\":1\n}\n// f") == "{\n\"a\":1\n}"
  {
    LiteralLines();
    assert "{\n// mid\n\"a\":1\n}\n// f" == "{" + [Newline] + "// mid\n\"a\":1\n}\n// f";
    assert "{" + [Newline] + "\"a\":1\n}" == "{\n\"a\":1\n}";
    InterleavedMiddle();
    PlainLineKept("{");
    KeptLineTruncated("{", "// mid\n\"a\":1\n}\n// f");
  }

  /** Comment lines interleaved with data lines vanish, and the data lines
      keep their order. */
  lemma InterleavedCommentsRemoved<V>(decode: string -> V)
    ensures JsonLoads(decode, "// h\n{\n// mid\n\"a\":1\n}\n// f") == decode("{\n\"a\":1\n}")
  {
    LiteralLines();
    assert "// h\n{\n// mid\n\"a\":1\n}\n// f" == "// h" + [Newline] + "{\n// mid\n\"a\":1\n}\n// f";
    CommentLineVanishes("// h");
    FullCommentLineVanishes("// h", "{\n// mid\n\"a\":1\n}\n// f");
    InterleavedBody();
  }

  /** The URL line is cut at the `//` of `http://`. */
  lemma UrlLineCut()
    ensures Truncate("{\"a\":\"http://x\"}") == "{\"a\":\"http:"
  {
    var line := "{\"a\":\"http://x\"}";
    assert line[..11] == "{\"a\":\"http:";
    assert MarkerAt(line, 11);
    TruncateAtFirstSlash(line, 11);
  }

  /** Stripping ignores string literals: the `//` of a URL inside a string is
      cut as a comment, leaving the decoder an unterminated string. */
  lemma MarkerInsideStringIsCut<V>(decode: string -> V)
    ensures JsonLoads(decode, "{\"a\":\"http://x\"}") == decode("{\"a\":\"http:")
  {
    LiteralLines();
    DataLineTruncated("{\"a\":\"http://x\"}");
    UrlLineCut();
  }
}
