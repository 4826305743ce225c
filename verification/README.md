# Comment-stripping JSON reader

A Dafny model of the JSON-with-comments reader in `src/utils.py`. The
reader accepts JSON documents annotated with `//` comments. Before any JSON
parsing, `JSONWithCommentsDecoder.decode` rewrites the text line by line:

1. split the text on `"\n"`;
2. drop every line whose `strip()`-ed form starts with `//` (a *full comment
   line*); it leaves no line behind, not even an empty one;
3. cut every remaining line before its first `//` (a *trailing comment*),
   as `line.split("//", maxsplit=1)[0]` does;
4. join the lines back with `"\n"`;

and hands the result to the standard JSON decoder. `json_loads` is this
decoder applied to a string.

Step 2 strips both ends of the line, while the comment syntax is usually
described as "the first non-whitespace characters are `//`". The model
follows the code (`Trim` is both-sided) and proves the two readings agree
(`Comments.FullCommentIffLeadingMarker`).

Stripping knows nothing about JSON string literals. A `//` inside a string
(`{"a":"http://x"}`) is cut as a comment, and the decoder then sees an
unterminated string. The model keeps this behaviour exactly.

Modules:

- `Lines` (`lines.dfy`): `Split` and `Join` with the meaning of Python's
  `s.split("\n")` and `"\n".join(lines)`, and both halves of their round trip.
- `Comments` (`comments.dfy`): the `//` marker, the subset of the whitespace `strip()`
  removes, `TrimLeft`/`TrimRight`/`Trim`, `IsFullComment` (step 2) and
  `Truncate` (step 3).
- `CommentStripping` (`strip.dfy`): `DropFullComments`, `TruncateAll`,
  `StripLines` and `Strip` (steps 1-4), with the properties of the whole
  pass: no marker survives, inputs without markers pass through, idempotence,
  order and count of the surviving lines, and the length bound.
- `JsonWithComments` (`json_loads.dfy`): `JsonLoads`, the standard decoder
  applied to `Strip(s)`. The standard decoder is a parameter `decode`, a
  function from text to whatever it yields (a value or a parse error), so
  every property holds for any decoder.
- `Cases` (`cases.dfy`): the worked inputs of the comment syntax, including
  the string-literal limitation.

## Model

| member | source | states |
|---|---|---|
| Lines.Split | src/utils.py:59 | `s.split("\n")` gives at least one line, exactly one more than there are line feeds, and no line holds a line feed |
| Lines.Join | src/utils.py:66 | `"\n".join(lines)` of no lines is empty; otherwise its length is the lines' length plus one separator per gap |
| Lines.JoinSplit | src/utils.py:59-66 | joining the lines of a split gives back the text exactly |
| Lines.SplitJoin | src/utils.py:59-66 | splitting the join of at least one separator-free line gives back those lines, so split and join are inverses |
| Lines.SplitAround | src/utils.py:59 | a line feed between two texts splits their lines apart: the lines of `a + "\n" + b` are the lines of `a` followed by those of `b` |
| Lines.SplitWithoutSeparator | src/utils.py:59 | a text without a line feed is a single line |
| Comments.TrimLeftCutsWhitespace | src/utils.py:61 | removing leading whitespace keeps a suffix that is empty or starts with non-whitespace, and cuts off only whitespace |
| Comments.TrimRightCutsWhitespace | src/utils.py:61 | removing trailing whitespace keeps a prefix that is empty or ends with non-whitespace, and cuts off only whitespace |
| Comments.TrimEnds | src/utils.py:61 | `strip()` never lengthens a line and leaves nothing or a text with non-whitespace at both ends |
| Comments.TrimRightKeepsMarker | src/utils.py:61 | removing trailing whitespace neither creates nor destroys a leading `//` |
| Comments.MarkerAtIsMarker | src/utils.py:5 | a marker starts at position `i` exactly when the two characters from `i` on are `_DOUBLE_SLASH`, `//` |
| Comments.Trim | src/utils.py:61 | `str.strip()` over the modelled whitespace set; `TrimLeftCutsWhitespace`, `TrimRightCutsWhitespace` and `TrimEnds` state what it keeps and cuts |
| Comments.IsFullComment | src/utils.py:61 | the drop test `line.strip().startswith("//")`; `FullCommentIffLeadingMarker` proves it equal to "only whitespace before a `//`" |
| Comments.FullCommentIffLeadingMarker | src/utils.py:61 | a line's `strip()`-ed form starts with `//` exactly when its `lstrip()`-ed form does, exactly when `//` follows a run of leading whitespace |
| Comments.FullCommentContainsMarker | src/utils.py:61 | every full comment line holds `//` |
| Comments.NotFullCommentByFirstCharacter | src/utils.py:61 | a line starting with neither whitespace nor `/` is kept |
| Comments.Truncate | src/utils.py:64 | the result is the prefix of the line before its first `//`: no `//` starts before its end, a `//` starts right after it when it is shorter, and a line without `//` is returned whole |
| Comments.TruncateAtFirstMarker | src/utils.py:64 | given the position of the first `//`, the truncated line is exactly the text before it |
| Comments.TruncateAtFirstSlash | src/utils.py:64 | a line whose first `/` begins a `//` is cut right there |
| Comments.TruncateWithoutSlash | src/utils.py:64 | a line without `/` is kept whole |
| CommentStripping.DropFullComments | src/utils.py:61 | the filter keeps no more lines than it is given, and no full comment line |
| CommentStripping.KeptAreInputLines | src/utils.py:61 | every line the filter keeps is one of its input lines |
| CommentStripping.DropPlacement | src/utils.py:61 | the filter keeps every line whose stripped form does not start with `//`, one for one and in order: kept line `i` lands at position `KeptBefore(lines, i)`, and the number kept is the number of non-comment lines |
| CommentStripping.NothingDroppedWithoutComments | src/utils.py:61 | without full comment lines the filter keeps every line |
| CommentStripping.TruncateAll | src/utils.py:64 | each output line is a `//`-free prefix of the input line at the same position, and a line that was cut has its first `//` right at the cut |
| CommentStripping.StripLines | src/utils.py:61-64 | the filtered, truncated lines; `StripLinesCons` and `StripLinesPlacement` fix each one's position and contents |
| CommentStripping.Strip | src/utils.py:57-66 | the stripped text holds no `//` at all, is never longer than the input, and equals the input when the input holds no `//` |
| CommentStripping.StripLinesCons | src/utils.py:61-64 | a full comment line contributes no output line, not even an empty one; any other line contributes its truncation |
| CommentStripping.JoinKeepsNoMarker | src/utils.py:64-66 | joining `//`-free lines with `"\n"` cannot form a `//` across a line boundary |
| CommentStripping.MarkerInLineIsInJoin | src/utils.py:59-66 | a `//` in one line is a `//` of the joined text, so a `//`-free text has `//`-free lines |
| CommentStripping.StripLinesNotLonger | src/utils.py:61-66 | dropping and truncating lines never lengthens the joined text |
| CommentStripping.CommentFreeLinesUnchanged | src/utils.py:59-64 | the lines of a `//`-free text are all kept and none is cut |
| CommentStripping.StripIdempotent | src/utils.py:59-66 | stripping twice is stripping once |
| CommentStripping.StripLinesOfOutput | src/utils.py:59-66 | the lines of the stripped text are exactly the surviving, truncated lines; when none survives the text is empty |
| CommentStripping.KeptBeforeIncreasing | src/utils.py:61 | a kept line lands before every later kept line, so the filter preserves order |
| CommentStripping.StripLinesPlacement | src/utils.py:61-64 | kept input line `i` becomes output line number `KeptBefore(lines, i)`, cut before its first `//`; there are exactly as many output lines as kept lines, never more than input lines |
| CommentStripping.FullCommentLineVanishes | src/utils.py:59-66 | a full comment line at the front of a text disappears together with its line feed |
| CommentStripping.KeptLineTruncated | src/utils.py:59-66 | any other line at the front of a text is cut before its first `//` and stays separated by one line feed from what survives after it |
| CommentStripping.StripSingleLine | src/utils.py:59-66 | a one-line text strips to nothing when it is a full comment line, otherwise to its truncation |
| CommentStripping.StripKeepsFirstCharacter | src/utils.py:59-66 | a text whose first character is neither whitespace, `/` nor a line feed still starts with that character after stripping |
| JsonWithComments.JsonLoads | src/utils.py:70-77 | `json_loads` hands the standard decoder the comment-stripped text, and a text with no `//` reaches it untouched |
| JsonWithComments.LoadsSeesOnlyStrippedText | src/utils.py:66-77 | `json_loads` of two texts that strip alike gives the same result |
| JsonWithComments.CommentFreeDocumentDecodesAsStandard | src/utils.py:57-77 | a document with no `//` anywhere, strings included, decodes exactly as the standard decoder decodes it |
| JsonWithComments.LoadsStrippedText | src/utils.py:57-77 | loading the stripped text gives the same result as loading the original |
| Cases.CommentLineVanishes | src/utils.py:59-66 | a single line that starts with `//` is a full comment line and strips to nothing, leaving no line |
| Cases.LeadingCommentLineRemoved | src/utils.py:57-77 | `// comment\n{"a":1}` reaches the decoder as `{"a":1}` |
| Cases.TrailingCommentCut | src/utils.py:57-77 | `{"a":1} // note` reaches the decoder as `{"a":1} ` |
| Cases.InterleavedCommentsRemoved | src/utils.py:57-77 | `// h\n{\n// mid\n"a":1\n}\n// f` reaches the decoder as `{\n"a":1\n}`, data lines in order |
| Cases.MarkerInsideStringIsCut | src/utils.py:57-77 | `{"a":"http://x"}` reaches the decoder as `{"a":"http:`: the `//` inside the string literal is cut as a comment |

## Left out

- `patch_windows_utf8` and its call at import time (`src/utils.py:9-47`): it replaces the process-wide `open` on one platform depending on an environment variable; this is global I/O configuration with no logic on the text.
- The standard JSON decoder (`super().decode`, `json.loads`): a standard-library call, modelled as the parameter `decode`; its parse errors and the positions they report (computed against the stripped text) are whatever `decode` returns.
- `json_load` (`src/utils.py:80-87`): it reads the whole stream and then behaves as `json_loads` on its contents; stream reading is I/O.
- The `**kwargs` passed on to the decoder (`src/utils.py:77`, `src/utils.py:87`): decoder configuration, part of the abstract `decode`.
- `json.loads` refuses a text starting with U+FEFF before it calls the decoder. That check belongs to the standard library and is not modelled. `StripKeepsFirstCharacter` shows such a text still starts with U+FEFF when it reaches the decoder, which then rejects it too.
- Comments.IsWhitespace: Python's `strip()` removes every Unicode whitespace character (also U+001C-U+001F, U+0085, U+00A0, U+2000-U+200A, U+3000 and others); the model uses only space, tab, carriage return, vertical tab and form feed, so a line such as U+00A0 followed by `//` is a full comment line in Python but is kept, cut to U+00A0, in the model. A line never holds a line feed, so that character does not matter.
