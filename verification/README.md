# Verification model of rlsp

This project models the parts of the rlsp YAML toolchain that decide the most
and proves what they promise.  `dafny verify dfyconfig.toml` checks it.

- **Loading** (`Events`, `Ast`, `LoaderSpec`, `Loader`): the loader that turns a
  stream of parse events into documents.  `Loader.LoadState` is the loader as it
  runs, with its anchor map, counters, pending comments and event stream updated
  in place; each method is proved against the function of the same name in
  `LoaderSpec`.  The properties of loading are proved about those functions:
  soundness of the anchor map (`LoaderAnchors`), conservation of comments
  (`LoaderComments`), their order and lines (`LoaderOrder`, `LoaderLines`), the
  exact place of each (`LoaderPlaces`), their transparency (`LoaderTransparent`),
  the exact error of a load (`LoaderScan`, `LoaderErrors`), faithfulness and
  nesting (`LoaderTokens`), size (`LoaderSize`), how far a load reads
  (`LoaderStream`), the round trip from trees (`LoaderRoundTrip`), and the refinement of lossless by resolved loading
  (`LoaderResolved`, `LoaderModes`) against a meaning of aliases on trees that
  knows nothing of events (`AliasSemantics`), also with every comment in its place
  (`AliasPlacement`, `LoaderPlacement`, `LoaderTidy`, `LoaderExample`).
- **Printing** (`Layout`, `PrintedPieces`, `Printer`, `PrinterLaws`): the two
  stack loops of the pretty printer against a recursive layout without modes,
  the words and line breaks that this layout consists of, and its laws.
- **Text** (`Utf8`, `Chars`, `Encodings`, `EncodingLaws`, `Positions`,
  `LineIndexes`, `Lines`, `LineBuffers`, `Lexers`, `LineBreaks`): byte-level
  validators, encodings, positions, lines, the line buffer as one queue, the
  lexer's position, and line breaks.
- **Schemas** (`Schema`, `SchemaRegex`): the hand-written recognisers and the
  resolution of tags against the tables of the schemas, whose rows are regular
  expressions.
- **The server's nesting limit** (`DocumentStores`, `ServerProtocol`,
  `CatalogSlot`): handlers as atomic steps between await points.

Texts of the loader and of the schemas are strings; the printer, the lines and
the validators work on UTF-8 bytes, as the program does.  Integers are
unbounded: inputs are below 4 GiB, as the program assumes.  The line index that
the loader asks is an arbitrary function from offsets to positions: results about
loading hold for every placement of comments on lines, or name the lines they
need; `LoaderLines` says what the real index makes of it.

## What is not as one might expect

Where the program and a description of it differ, the model follows the
program, and a lemma says exactly when they differ.

- A UTF-16LE stream with a byte order mark whose text begins with NUL is read as
  UTF-32LE; without a mark, NUL as the second character of a UTF-8 or UTF-16LE text
  misleads the detection (`MarkedRoundTrip`, `UnmarkedRoundTrip`).
- Stripping a byte order mark does not count a line's indent again, and the
  column behind an unterminated line then falls behind by one for each mark
  (`StrippedIndent`, `StrippedLinesEndWhereTheyDid`, `ExactEnd`).
- In resolved mode the comments around an alias are placed by the node it stands
  for.  `ResolvedKeepsComments` says exactly when the trees of the two modes agree
  with their comments, `TidyStreamsKeepComments` when they do by looking at the
  stream, and `CommentMoves` gives a stream on which they do not.  In every case
  they hold the same comments (`ModesHoldTheSameComments`).
- `-0` is a float for JSON and an integer for Core (`JsonAgreesWithCore`).
- Line content is checked for printable characters without LF and CR, which
  are printable in YAML 1.2.2 (`FindNonCPrintable`).

## Model

| member | source | states |
|---|---|---|
| LoaderPlacement.ResolvedKeepsComments | rlsp-yaml-parser/src/loader.rs:1061-1174 | On every stream, comments included: the resolved documents are the lossless ones with every alias replaced by the comment-free copy it stands for, at the alias's place and with the alias's own comments, and with no other node, comment or document field changed, if and only if every alias settles; an alias settles when its comments go where they would go around the node it stands for; the errors are exactly those of the replacement |
| LoaderTidy.TidyStreamsKeepComments | rlsp-yaml-parser/src/loader.rs:987-1018 | When every alias settles, read off the stream: each is written on one line, and no comment directly in front of one stands below the properties of an empty plain scalar with its name; then the resolved documents are the lossless ones with aliases replaced, comments and end comments included |
| LoaderExample.CommentMoves | rlsp-yaml-parser/src/loader.rs:987-1018 | A stream on which it fails, loaded in both modes: the events of `- &a`, `- # c`, `  *a`, `- x`, where the empty node ends at the second dash and the comment stands between it and the alias; the comment is the alias's in lossless mode and the next item's in resolved mode |
| LoaderExample.CommentFirstStays | rlsp-yaml-parser/src/loader.rs:979-986 | With the comment on a line of its own, `- &a`, `# c`, `- *a`, `- x`, its event comes before the empty node: every alias settles, and both modes load and agree, comments included |
| LoaderPlacement.NodeKeeps | rlsp-yaml-parser/src/loader.rs:614-632 | The same for one node, from any two states at the same place: if every alias in it settles, the resolved node is the lossless one with aliases replaced and the loads stay together with the same comments waiting; if not, the nodes differ in their children |
| AliasPlacement.FinishKeeps | rlsp-yaml-parser/src/loader.rs:871-928 | The same for the comments around one key, value or item |
| AliasSemantics.KeepHoldsComments | rlsp-yaml-parser/src/loader.rs:1061-1084 | Replacing aliases moves no comment: every node of the tree, or what takes its place, has the leading and trailing comments it had, and the tree holds the same comments |
| AliasSemantics.KeepResolves | rlsp-yaml-parser/src/loader.rs:1061-1174 | and comments aside it is the meaning of aliases, with the same names, the same budget and the same error |
| LoaderResolved.ResolvedRefinesLossless | rlsp-yaml-parser/src/loader.rs:1061-1174 | On every stream, comments aside and without any condition: resolved loading is lossless loading followed by the meaning of aliases on trees (latest completed node of that name in the same document, copied without comments), with exactly the same error when an alias is undefined or the budget runs out; a stream that fails losslessly fails resolved |
| LoaderPlaces.EveryCommentIsInItsPlace | rlsp-yaml-parser/src/loader.rs:871-1018 | For every stream that loads, in both modes, the exact place of every comment, given on the events and the tree alone: the comment behind the last event of a key, value, item or root is its trailing comment if and only if it stands on its line (the first line of a block scalar, else the line of the end of the text; a node without text has none, but a key has its place); keys and items lead with what waited and with the comments in front of them, up to the first below the properties of an empty node; values and roots lead with none; everything else waits for the next key, item or document end |
| LoaderPlaces.NodeIsPlaced | rlsp-yaml-parser/src/loader.rs:614-804 | The same for one node, with the comments waiting in front of it and behind it |
| LoaderPlaces.NodeReads | rlsp-yaml-parser/src/loader.rs:614-804 | Loading a node reads exactly its events: one, or from the start of a collection to the end that balances it, whatever is open around it |
| LoaderPlaces.KeyIsPlaced | rlsp-yaml-parser/src/loader.rs:890-901 | A key has the leading and the trailing comment of its place, and the comments that are not its own wait behind those inside it |
| LoaderPlaces.ValueIsPlaced | rlsp-yaml-parser/src/loader.rs:1205-1293 | A value or a root takes the comment behind it if and only if that stands on its line, and no other |
| LoaderScan.RunFailsAsScanned | rlsp-yaml-parser/src/loader.rs:468-951 | The exact error of a load: on every stream, a pass over the events with only a stack of open collections and the set of anchor names finds the first parse error, missing or unbalanced end, second root, unresolved scalar, or limit that is exceeded; a lossless load fails exactly with that error, kind, limit and position included, and succeeds exactly when there is none; a resolved load does too, unless the meaning of an alias fails it before |
| LoaderScan.NodeIsScanned | rlsp-yaml-parser/src/loader.rs:614-804 | The same for one node inside any collections: its load fails as the pass does, or leaves off where the pass goes on |
| LoaderErrors.RunReportsTheError | rlsp-yaml-parser/src/loader.rs:834-844 | For every stream with a parse error behind good events: the load reports that error with its position and kind, or its outcome was decided in front of it, and is the same error, or the same documents behind a stream end, whatever stands in the error's place |
| LoaderErrors.NodeCut | rlsp-yaml-parser/src/loader.rs:614-804 | The same for one node: it reports the error, or comes to it, or does not depend on what stands from there on |
| LoaderStream.FramedRunKeepsEveryComment | rlsp-yaml-parser/src/loader.rs:468-593 | Conservation, and exactly when, for every stream with a start in front and an end only at the end: the multiset of its comments equals the comments held by the trees and the four document fields if and only if the stream has a document start or no comment |
| LoaderStream.RunStopsAtTheEnd | rlsp-yaml-parser/src/loader.rs:468-593 | Whatever the stream: what a successful load leaves unread is a rest of it that is empty or stands right behind a stream end |
| LoaderComments.RunAccountsForComments | rlsp-yaml-parser/src/loader.rs:468-593 | Every comment of a stream is in exactly one place: a tree, a document field, the first event, behind the end, or (with no document) dropped; for every placement of lines |
| LoaderComments.ParseNodeKeepsComments | rlsp-yaml-parser/src/loader.rs:614-632 | Loading one node moves comments between the node, the waiting list and the unread stream and loses or doubles none |
| LoaderOrder.CommentsKeepTheirOrder | rlsp-yaml-parser/src/node.rs:131-161 | The comments of a stream are an order-preserving interleaving of the comments before things (document order) and the comments at line ends (document order), and each line-end comment stood on the line of its node: the first line of a block scalar, else the line where the text ends, and for a key without text the line of its place |
| LoaderStream.FramedCommentsKeepTheirOrder | rlsp-yaml-parser/src/loader.rs:468-593 | For a stream with its end at the end, these are all its comments |
| LoaderOrder.ParseNodeKeepsOrder | rlsp-yaml-parser/src/loader.rs:614-729 | The same for one node: on top of the comments waiting before it, what was read is what the node holds inside, in order, and what waits after it |
| LoaderOrder.FinishKeyKeepsOrder | rlsp-yaml-parser/src/loader.rs:871-901 | Comments in front of a key come before those inside it; the ones an empty key passes on wait behind all others |
| LoaderOrder.FinishItemKeepsOrder | rlsp-yaml-parser/src/loader.rs:920-928 | The same for a sequence item |
| LoaderTransparent.CommentsAreTransparent | rlsp-yaml-parser/src/loader.rs:468-593 | In both modes, taking all comments out of a stream that does not begin with one changes neither the trees, nor what else a document holds, nor any error |
| LoaderTransparent.ParseNodeIgnoresComments | rlsp-yaml-parser/src/loader.rs:614-632 | The same for one node, from any two states that differ by comments alone |
| LoaderTransparent.CommentedRoundTrip | rlsp-yaml-parser/src/loader.rs:468-593 | However comments are put between the events that trees within the limits are written as, lossless loading gives back the trees |
| LoaderLines.NodeEndsOnTheLineOfItsLastByte | rlsp-yaml-parser/src/loader.rs:1267-1293 | With lines from the line index, the line on which the comment of a node that is no block scalar has its place is that of its last byte, also when its span ends behind a line break |
| LoaderModes.ModesHoldTheSameComments | rlsp-yaml-parser/src/loader.rs:468-593 | Whenever a stream loads in both modes, both find as many documents and hold the same multiset of comments |
| LoaderAnchors.RunIsSound | rlsp-yaml-parser/src/loader.rs:468-593 | No run returns the circular-alias error; the depth returns to zero; resolved documents hold no alias |
| LoaderAnchors.ParseNodeIsSound | rlsp-yaml-parser/src/loader.rs:614-632 | In every state reached, the anchor map holds only alias-free trees without comments, its size is the anchor count and within the limit, the budget is kept, and the depth is back where it was |
| LoaderAnchors.ExpandAliasFree | rlsp-yaml-parser/src/loader.rs:1092-1174 | Expanding an alias-free tree returns it unchanged and costs exactly its node count, or fails exactly when that exceeds the budget |
| LoaderAnchors.ExpandRemovesAliases | rlsp-yaml-parser/src/loader.rs:1092-1174 | For every anchor map, even a cyclic one, expansion terminates, leaves no alias and pays for every node it produces |
| LoaderAnchors.RegisterAnchorIsSound | rlsp-yaml-parser/src/loader.rs:1020-1059 | Registering an anchor keeps that invariant |
| LoaderAnchors.SchemaKeepsTheRest | rlsp-yaml-parser/src/loader.rs:1368-1454 | Applying the schema changes a node's tag and tag location and nothing else: value, style, children, span, anchor, anchor location and comments stay |
| LoaderTokens.RunTokens | rlsp-yaml-parser/src/loader.rs:468-593 | Lossless loading loses and invents nothing: the tokens read are those of the documents, in order, each from its first token to its last with every collection closed by an end of its own kind at its place, with anchors, spans and tags (the written one, `str` for `!`, and without one `str`, `map`, `seq` or the first row of the schema's table that matches); outside documents only ends of collections are skipped; no tree is deeper than the nesting limit |
| LoaderStream.FramedRunTokens | rlsp-yaml-parser/src/loader.rs:468-593 | For a stream with its end at the end, these are all its tokens |
| LoaderTokens.ParseNodeTokens | rlsp-yaml-parser/src/loader.rs:614-632 | A node uses exactly its own tokens, closes every collection with an end of its own kind, restores the depth and nests within the limit |
| LoaderSize.RunSize | rlsp-yaml-parser/src/loader.rs:1092-1174 | A loaded document has at most 1 + 2 * events + max_expanded_nodes nodes |
| LoaderSize.ParseNodeSize | rlsp-yaml-parser/src/loader.rs:614-632 | Each node is paid for by the events it used and the budget it spent |
| LoaderRoundTrip.RoundTrip | rlsp-yaml-parser/src/loader.rs:468-593 | Writing any list of comment-free trees within the limits as events and loading them losslessly gives back the same trees with tags filled in by the schema, and reads the whole stream |
| LoaderRoundTrip.TreeLoads | rlsp-yaml-parser/src/loader.rs:614-804 | The same for one tree in any state that has room for it |
| AstLemmas.CloneKeepsTheTree | rlsp-yaml-parser/src/loader/comments.rs:62-128 | The copy without comments has none anywhere, and node by node the same values, styles, tags, spans, anchors and property locations |
| AstLemmas.SameTreeIsSameClone | rlsp-yaml-parser/src/loader/comments.rs:62-128 | Two trees have equal copies if and only if they are the same tree apart from comments |
| Loader.EventStream.ConsumeLeadingComments | rlsp-yaml-parser/src/loader/stream.rs:53-88 | Reads the maximal run of comments in front of the stream |
| Loader.LoadState.Run | rlsp-yaml-parser/src/loader.rs:468-593 | The loop over a stream computes the load of the specification: the same documents, the same error, the same state |
| Loader.LoadState.LoadDocument | rlsp-yaml-parser/src/loader.rs:491-564 | One document, with its four comment fields and its end event |
| Loader.LoadState.EndDocument | rlsp-yaml-parser/src/loader.rs:518-563 | What may follow the root; a closing event or a second root is an error |
| Loader.LoadState.ParseRoot | rlsp-yaml-parser/src/loader.rs:507-515 | The root of a document, which may be missing |
| Loader.LoadState.ParseNode | rlsp-yaml-parser/src/loader.rs:614-632 | The recursion over nodes computes the load of the specification |
| Loader.LoadState.ParseEntries | rlsp-yaml-parser/src/loader.rs:776-790 | The loop over the entries of a mapping does |
| Loader.LoadState.ParseItems | rlsp-yaml-parser/src/loader.rs:793-804 | The loop over the items of a sequence does |
| Loader.LoadState.BeginNode | rlsp-yaml-parser/src/loader.rs:641-729 | The start of a node, with the comments in front of a value put with the waiting ones |
| Loader.LoadState.NextEntry | rlsp-yaml-parser/src/loader.rs:813-868 | Whether a collection goes on, who inherits the waiting comments, and the error for an end of the wrong kind |
| Loader.LoadState.FinishKey | rlsp-yaml-parser/src/loader.rs:890-901 | The comments around a key |
| Loader.LoadState.FinishValue | rlsp-yaml-parser/src/loader.rs:907-914 | The comment at the end of a value's line |
| Loader.LoadState.FinishItem | rlsp-yaml-parser/src/loader.rs:920-928 | The comments around an item |
| Loader.LoadState.FinishCollection | rlsp-yaml-parser/src/loader.rs:937-951 | End event, depth, schema and anchor of a collection |
| Loader.LoadState.SplitCommentsAfterEmptyNode | rlsp-yaml-parser/src/loader.rs:987-1018 | The comments that stay with an empty node and those below its properties |
| Loader.LoadState.RegisterAnchor | rlsp-yaml-parser/src/loader.rs:1020-1059 | Anchor count, expansion budget and the stored copy |
| Loader.LoadState.ResolveAlias | rlsp-yaml-parser/src/loader.rs:1061-1084 | An alias node, or the expansion of its anchor at the alias's place |
| Loader.LoadState.ExpandNode | rlsp-yaml-parser/src/loader.rs:1092-1174 | The recursive expansion with its budget and its set of names in progress |
| Loader.LoadState.EnterCollection | rlsp-yaml-parser/src/loader.rs:763-772 | The nesting limit |
| Printer.Format | rlsp-fmt/src/printer.rs:48-126 | The work-stack loop writes exactly the recursive, mode-free layout of the document, and so exactly its pieces: texts, one-line groups, and line breaks, each followed by k * tab_width spaces or k tabs under k indents; a group is one line if and only if it has no hard line and adds nothing or ends within the print width; with newline-free texts the column that the loop keeps is the length of the line it is writing |
| Printer.Fits | rlsp-fmt/src/printer.rs:133-171 | The lookahead is true exactly when the document has a flat text and it is no longer than what remains |
| Printer.PushIndent | rlsp-fmt/src/printer.rs:174-185 | Appends the indentation and nothing else |
| Printer.LayStackPushAll | rlsp-fmt/src/printer.rs:87-96 | Children pushed in reverse are laid out in their own order |
| PrintedPieces.LayIsSpelled | rlsp-fmt/src/printer.rs:48-126 | The layout of every document is its pieces written out, at every indent and column |
| PrintedPieces.BreaksAreLines | rlsp-fmt/src/printer.rs:80-110 | The line breaks that are written are lines of the document, in order, each under exactly the indents around that line |
| PrintedPieces.FlatTextIsOneLine | rlsp-fmt/src/printer.rs:133-171 | The flat text is the document's texts with a space for each line, and there is none if and only if a hard line is among them |
| PrinterLaws.ColumnIsLineLength | rlsp-fmt/src/printer.rs:48-126 | With newline-free texts the tracked column is the length of the output line, in every context |
| PrinterLaws.FlatGroupStaysWithinTheWidth | rlsp-fmt/src/printer.rs:97-110 | A group that fits is its flat text, adds no newline, and ends within the print width unless it adds nothing |
| PrinterLaws.NormaliseKeepsOutput | rlsp-fmt/src/printer.rs:87-110 | Splicing nested concatenations and dropping a group directly in a group changes no output for any options, indent or column |
| PrinterLaws.NormaliseKeepsFlatText | rlsp-fmt/src/printer.rs:133-171 | and changes no decision about what fits |
| PrinterLaws.NormaliseIsNormal | rlsp-fmt/src/ir.rs:10-31 | and leaves no such nesting anywhere |
| PrinterLaws.LayAllAppend | rlsp-fmt/src/printer.rs:87-96 | A concatenation is laid out part after part, each from the column where the one before ended |
| PrinterLaws.LayShowsContent | rlsp-fmt/src/printer.rs:48-126 | When both sides of every alternative show the same, the output shows exactly the document's content, white space aside |
| PrinterLaws.OptionsOnlyMoveWhiteSpace | rlsp-fmt/src/printer.rs:48-126 | Then width, tab width and tabs only ever move white space |
| Builders.Join | rlsp-fmt/src/ir.rs:171-185 | All documents in order with the separator between each two, and nothing else |
| Chars.FindNonCPrintable | rlsp-yaml-parser/src/chars.rs:76-122 | For every well-formed byte string: the offset and value of the first character that is LF, CR or not c-printable, or none when there is none |
| Chars.FindNonNbJson | rlsp-yaml-parser/src/chars.rs:140-161 | The same for the first character that is not nb-json |
| Chars.HexEscapeRoundTrip | rlsp-yaml-parser/src/chars.rs:333-376 | Every character has a hexadecimal escape of each length that can hold it, and it decodes to that character whatever follows |
| Chars.LetterEscapeRoundTrip | rlsp-yaml-parser/src/chars.rs:333-376 | An escape of one byte decodes to a character if and only if it is the letter of that character by section 5.7 of YAML 1.2.2, or a tab for a tab |
| Chars.EscapeIsAPrefix | rlsp-yaml-parser/src/chars.rs:333-376 | Decoding an escape looks at no byte behind those it consumes |
| Utf8.DecodeUndoesEncode | rlsp-yaml-parser/src/encoding.rs:110-114 | UTF-8: decoding undoes encoding |
| Utf8.OnlyEncodingsDecode | rlsp-yaml-parser/src/encoding.rs:110-114 | and only encodings decode |
| Encodings.DecodeUtf32 | rlsp-yaml-parser/src/encoding.rs:152-176 | The loop with its skip flag: one leading mark is dropped, the first bad code point is the error |
| Encodings.Decode | rlsp-yaml-parser/src/encoding.rs:94-102 | Decoding in the detected encoding |
| EncodingLaws.MarkedRoundTrip | rlsp-yaml-parser/src/encoding.rs:58-176 | Decode undoes encode for every text in all five encodings behind a mark, except exactly UTF-16LE texts that begin with NUL, which never come back |
| EncodingLaws.UnmarkedRoundTrip | rlsp-yaml-parser/src/encoding.rs:58-176 | Without a mark, for texts that are empty or begin with a non-NUL ASCII character: exactly unless the second character is NUL in UTF-8 or UTF-16LE |
| EncodingLaws.UnmarkedUtf8RoundTrip | rlsp-yaml-parser/src/encoding.rs:58-114 | UTF-8 without a mark comes back for every text that does not begin with NUL or a mark, also one that begins beyond ASCII, exactly unless its first character is ASCII and its second is NUL |
| EncodingLaws.DecodingFails | rlsp-yaml-parser/src/encoding.rs:94-176 | Which error a failed decoding gives: truncation exactly when the length is odd, or no multiple of four, in the detected encoding, else the bytes or a code point |
| EncodingLaws.MarkedIsDetected | rlsp-yaml-parser/src/encoding.rs:58-78 | The detected encoding of every marked text, with the one exception |
| EncodingLaws.UnmarkedIsDetected | rlsp-yaml-parser/src/encoding.rs:58-78 | The detected encoding of every unmarked text that begins with an ASCII character other than NUL: its own, except that with NUL in second place UTF-16LE is taken for UTF-32LE, and UTF-8 for UTF-32LE when NULs come third and fourth and for UTF-16LE otherwise |
| EncodingLaws.DecodedIsFaithful | rlsp-yaml-parser/src/encoding.rs:94-176 | Whatever decodes, written back in the detected encoding with or without a mark, is the input |
| LineIndexes.New | rlsp-yaml-parser/src/pos.rs:99-130 | The table lists exactly the line breaks of the source, strictly increasing; CR LF once, at its CR |
| LineIndexes.LineColumnIsScan | rlsp-yaml-parser/src/pos.rs:138-191 | The binary search gives the line and column of a left-to-right scan at every character boundary, also inside a CR LF |
| LineIndexes.LineColumnIsMonotone | rlsp-yaml-parser/src/pos.rs:138-191 | Positions are lexicographically monotone, and two boundaries share one exactly when they enclose the LF of a CR LF |
| Positions.ColumnAt | rlsp-yaml-parser/src/pos.rs:56-63 | The ASCII shortcut gives the character count |
| Positions.AdvanceWithinLineIsAdvanceAll | rlsp-yaml-parser/src/pos.rs:33-73 | Advancing over a line at once is advancing over its characters one by one |
| Lines.LinesTile | rlsp-yaml-parser/src/lines.rs:107-137 | The contents and terminators of the lines, joined, are the text |
| Lines.LinesAreWellFormed | rlsp-yaml-parser/src/lines.rs:107-137 | No line holds a break, the indent counts leading spaces, and only the last line may lack a terminator, and then is not empty |
| Lines.LinesStandWhereScanned | rlsp-yaml-parser/src/lines.rs:107-137 | Each line is a slice of the text at the position the scan gives, in column 0 |
| Lines.LinesChain | rlsp-yaml-parser/src/lines.rs:455-469 | Each line starts where the one before ended, and the last ends at the end of the text; the position behind each line is reached over its characters and then its break |
| LineBuffers.LineBuffer.constructor | rlsp-yaml-parser/src/lines.rs:166-177 | A fresh buffer is the queue of the input's lines |
| LineBuffers.LineBuffer.Prime | rlsp-yaml-parser/src/lines.rs:433-447 | Priming moves one line and leaves the queue as it was |
| LineBuffers.LineBuffer.PrependLine | rlsp-yaml-parser/src/lines.rs:186-190 | A prepended line is the new head of the queue |
| LineBuffers.LineBuffer.PeekNext | rlsp-yaml-parser/src/lines.rs:196-198 | The head of the queue |
| LineBuffers.LineBuffer.PeekSecond | rlsp-yaml-parser/src/lines.rs:218-231 | The second line of the queue, wherever it is stored |
| LineBuffers.LineBuffer.PeekFirstLineWhere | rlsp-yaml-parser/src/lines.rs:254-265 | The first wanted line of the queue |
| LineBuffers.LineBuffer.PeekFirstLineAfterNextWhere | rlsp-yaml-parser/src/lines.rs:270-302 | The first wanted line behind the head |
| LineBuffers.LineBuffer.PeekFirstContentLineAfterNext | rlsp-yaml-parser/src/lines.rs:241-245 | The first line with content behind the head |
| LineBuffers.ContentIsNotWhite | rlsp-yaml-parser/src/lines.rs:241-245 | A line has content if and only if some byte of it is neither a space nor a tab |
| LineBuffers.LineBuffer.ConsumeNext | rlsp-yaml-parser/src/lines.rs:308-318 | Takes the head of the queue |
| LineBuffers.LineBuffer.AtEof | rlsp-yaml-parser/src/lines.rs:323-325 | Whether the queue is empty |
| LineBuffers.LineBuffer.SignalDocumentBoundary | rlsp-yaml-parser/src/lines.rs:344-357 | Strips one mark, and only from the first line that comes from the input; a line that began with several marks keeps the others |
| LineBuffers.LineBuffer.PeekUntilDedent | rlsp-yaml-parser/src/lines.rs:372-426 | The longest prefix of the input lines that are empty or deeper than the base; the queue is unchanged |
| LineBuffers.StrippedLineEndsWhereItDid | rlsp-yaml-parser/src/lines.rs:344-357 | Stripping a mark changes the position behind a line only when it has no terminator, and then the column by one |
| Lexers.StrippedLinesEndWhereTheyDid | rlsp-yaml-parser/src/lines.rs:344-357 | and stripping any number of marks by that number of columns |
| LineBuffers.StrippedIndent | rlsp-yaml-parser/src/lines.rs:72-75 | A stripped line's indent counts its leading spaces exactly when no space follows the mark |
| Lexers.TailEndsWithItsLine | rlsp-yaml-parser/src/lexer.rs:236-389 | The tail of a marker line, re-presented as a line, is the exact end of that line and ends at the same position; in front of it are the marker and white space only |
| Lexers.TailIsPutBackOrRejected | rlsp-yaml-parser/src/lexer.rs:236-389 | Of what follows a marker, by what stands on the line: nothing is put back behind a `...`, where all but a comment is an error; behind a `---` what can start the root node is read again, and other content is an error |
| Lexers.Lexer.constructor | rlsp-yaml-parser/src/lexer.rs:82-92 | A fresh lexer is in step with the lines of its input |
| Lexers.Lexer.ConsumeLine | rlsp-yaml-parser/src/lexer.rs:439-443 | The current position stays the start of the next line of the input, or its end |
| Lexers.Lexer.SkipEmptyLines | rlsp-yaml-parser/src/lexer.rs:103-116 | Takes exactly the blank lines in front |
| Lexers.Lexer.SkipBlankLinesBetweenDocs | rlsp-yaml-parser/src/lexer.rs:130-145 | The same, and then strips at most one mark |
| Lexers.Lexer.ConsumeMarkerLine | rlsp-yaml-parser/src/lexer.rs:236-389 | What becomes of a marker line and of its tail |
| Lexers.Lexer.DrainToEnd | rlsp-yaml-parser/src/lexer.rs:469-474 | Draining returns the end of the input, offset and line exactly; its column plus the number of marks taken from an unterminated last line is that of the end, so it is the end if and only if none was taken |
| LineBreaks.NormaliseLineBreaks | rlsp-yaml-parser/src/encoding.rs:188-207 | The loop with its fast path turns every break into LF; no CR is left, a second pass changes nothing, and the text is as it was if and only if it had no CR |
| LineBreaks.NormaliseKeepsContents | rlsp-yaml-parser/src/encoding.rs:180-207 | Normalising leaves the list of line contents unchanged |
| LineBreaks.NormaliseCommutesWithEncoding | rlsp-yaml-parser/src/encoding.rs:188-207 | Normalising characters or bytes comes to the same |
| LineBreaks.SplitLinesHasContents | rlsp-yaml-parser/src/lines.rs:107-137 | The line splitter finds the same contents |
| LineBreaks.SplittersAgree | rlsp-yaml-parser/src/lines.rs:433-469 | On every text, each line of a fresh buffer starts at its line number and column 0 in the line index, and the normalised text splits into the same contents |
| SchemaRegex.CoreIntIsRegular | rlsp-yaml-parser/src/schema.rs:309-341 | The Core integer recogniser accepts the regular language of its row minus decimals with a leading zero |
| SchemaRegex.CoreFloatIsRegular | rlsp-yaml-parser/src/schema.rs:347-407 | The Core float recogniser accepts the regular language of its row minus numbers with neither dot nor exponent |
| SchemaRegex.JsonIntIsRegular | rlsp-yaml-parser/src/schema.rs:442-455 | The JSON integer recogniser accepts exactly its row |
| SchemaRegex.JsonFloatIsRegular | rlsp-yaml-parser/src/schema.rs:461-500 | The JSON float recogniser accepts exactly its row |
| SchemaRegex.DispatchIsInOrder | rlsp-yaml-parser/src/schema.rs:195-243 | Dispatch on the first byte equals trying null, bool, int, float, str in order |
| SchemaRegex.ResolvesByTheTables | rlsp-yaml-parser/src/schema.rs:133-301 | A scalar without a tag is a string under Failsafe and when its style is not plain; a plain one gets the tag of the first row of the Core or JSON table that matches, null and bool rows included; it is unresolved exactly when no JSON row does |
| SchemaRegex.JsonAgreesWithCore | rlsp-yaml-parser/src/schema.rs:259-271 | Whatever JSON resolves gets the same Core tag, except exactly `-0` |
| DocumentStores.DocumentStore.Open | rlsp-yaml/src/document_store.rs:48-51 | Stores the text with the documents that loading it at the limit gives, and with none exactly when that gives none |
| DocumentStores.DocumentStore.Change | rlsp-yaml/src/document_store.rs:54-58 | The same for an open document, with the new text; others stay closed |
| DocumentStores.DocumentStore.ReparseAll | rlsp-yaml/src/document_store.rs:66-75 | Keeps every text, stores with it the documents that loading it at the limit gives, and none exactly when that gives none, and lists each document once, in any order |
| DocumentStores.DocumentStore.Close | rlsp-yaml/src/document_store.rs:78-80 | Removes the document and no other |
| ServerProtocol.Server.DidChangeConfiguration | rlsp-yaml/src/server.rs:897-911 | The first half of a settings update is one step of the protocol |
| ServerProtocol.Server.ReparseOpenDocuments | rlsp-yaml/src/server.rs:923-931 | The second half, which an update overtaken by another limit skips |
| ServerProtocol.Server.LoadIsCurrent | rlsp-yaml/src/server.rs:941-947 | Whether a load still describes the open document |
| ServerProtocol.Server.Opened | rlsp-yaml/src/server.rs:1106-1113 | Opening a document is one step |
| ServerProtocol.Server.Changed | rlsp-yaml/src/server.rs:1118-1124 | Changing a document is one step; only the last change counts |
| ServerProtocol.Server.Closed | rlsp-yaml/src/server.rs:1131-1136 | Closing a document is one step |
| ServerProtocol.QuiescentIsCurrent | rlsp-yaml/src/server.rs:913-947 | Over every interleaving the stored texts are those the client last sent, and every text has the documents that loading it gives at the limit the client set last, and none exactly when that gives none, unless a load at that limit is pending; so when nothing is pending all have |
| ServerProtocol.RunIsSafe | rlsp-yaml/src/server.rs:923-936 | That invariant is kept by every run from any state that has it |
| ServerProtocol.TextsAreTheClients | rlsp-yaml/src/server.rs:1106-1143 | Re-parses never replace a text by an older one |
| ServerProtocol.DrainingSettles | rlsp-yaml/src/server.rs:1043-1049 | The pending loads, run in any order, leave everything current |
| ServerProtocol.SplitOpenGoesStale | rlsp-yaml/src/server.rs:1109-1113 | Were reading the limit and storing the tree two steps, a stale tree could stay with nothing pending |
| CatalogSlot.StepAnswers | rlsp-yaml/src/server.rs:357-397 | A caller that asks a filled slot gets what is in it at once, another fetches; a fetched catalog fills the slot only if it is still empty, and its caller gets what is then in the slot |
| CatalogSlot.OneCatalogForAll | rlsp-yaml/src/server.rs:357-397 | The catalog slot is written once, and all callers that get a catalog get the same |

## Left out

- LoaderResolved.ResolvedRefinesLossless: compares trees without their comments, and not the end comments, since around an alias comments may be placed otherwise; LoaderPlacement.ResolvedKeepsComments states the refinement with all of them and exactly when it holds
- LoaderScan.RunFailsAsScanned: for a resolved load that an alias fails, LoaderResolved.ResolvedRefinesLossless gives the error when the lossless load succeeds; when that fails too, which of the two errors comes first is not stated
- Loader.LoadState.ParseNode: returns the node instead of filling the slot in the parent's vector, so the aliasing of slots and the stack use per level are not modelled
- Lexers.Lexer.ConsumeMarkerLine: the block-header, plain-scalar and implicit-key tests on the tail are one arbitrary predicate, and the text of a comment on the marker line is not parsed
- Lexers.Lexer.DrainToEnd: lines that other callers prepend (from entry lines and quoted-scalar tails) are not modelled, only marker tails
- Encodings.Decode: `str::from_utf8` and `char::decode_utf16` of the standard library are modelled by their documented results
- LineIndexes.New: the truncation of offsets to 32 bits is not modelled
- ServerProtocol.Server.ReparseOpenDocuments: publishing diagnostics for the listed documents is not modelled
- The block and flow grammar that produces events is not part of this model
- Error message texts and their sanitising; only kinds and positions are modelled
- The conversion of loaded documents to other structures, `load`'s choice of options, and accessors
- JSON Schema validation, schema association and fetching, completion, hover and code actions
- Directive lines, comment bodies, quoted and block scalars in the lexer
- Character classes for URIs, tags and anchors, which add only easy members
- Lock poisoning and failed tasks in the server; settings other than the nesting limit
- The line width of whole printed documents: `fits` looks at a group without what follows it, so neither a width bound nor monotonicity in the width holds in general
