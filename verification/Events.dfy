/** Parse events and the peekable stream the loader reads them from. */
module Events {
  import opened Positions
  import opened Wrappers

  datatype Span = Span(start: nat, end: nat)

  datatype Chomp = Strip | Clip | Keep

  datatype CollectionStyle = Block | Flow

  datatype ScalarStyle = Plain | SingleQuoted | DoubleQuoted | Literal(chomp: Chomp) | Folded(chomp: Chomp)

  /** The properties written before a node. */
  datatype Properties = Properties(
    anchor: Option<string>, anchorLoc: Option<Span>, tag: Option<string>, tagLoc: Option<Span>)

  datatype Event =
    | StreamStart
    | StreamEnd
    | Comment(text: string)
    | Alias(name: string)
    | DocumentStart(explicitStart: bool, version: Option<(nat, nat)>, tagDirectives: seq<(string, string)>)
    | DocumentEnd(explicitEnd: bool)
    | Scalar(value: string, style: ScalarStyle, props: Properties)
    | MappingStart(collectionStyle: CollectionStyle, props: Properties)
    | MappingEnd
    | SequenceStart(collectionStyle: CollectionStyle, props: Properties)
    | SequenceEnd

  datatype ErrorKind = InvalidCharacter | Syntax

  datatype ParseError = ParseError(pos: Pos, kind: ErrorKind)

  /** What the parser yields: an event with its span, or a parse error. */
  datatype Item = Good(event: Event, span: Span) | Bad(error: ParseError)

  predicate StartsWithComment(stream: seq<Item>) {
    stream != [] && stream[0].Good? && stream[0].event.Comment?
  }

  /** The events that close a collection or a document: no node starts with one. */
  predicate StartsWithClosing(stream: seq<Item>) {
    stream != [] && stream[0].Good?
    && (stream[0].event.MappingEnd? || stream[0].event.SequenceEnd? || stream[0].event.DocumentEnd?)
  }

  /** The length of the run of comments at the front of the stream. */
  function CommentRun(stream: seq<Item>): (k: nat)
    ensures k <= |stream|
    ensures forall i :: 0 <= i < k ==> stream[i].Good? && stream[i].event.Comment?
    ensures !StartsWithComment(stream[k..])
  {
    if StartsWithComment(stream) then
      assert stream[1..][CommentRun(stream[1..])..] == stream[1 + CommentRun(stream[1..])..];
      1 + CommentRun(stream[1..])
    else 0
  }

  /** A comment as it is stored: with the `#` that the event leaves out. */
  function WithHash(text: string): string {
    "#" + text
  }

  /** The texts of all comments in a stretch of stream, in order, each with its `#`. */
  function CommentTexts(stream: seq<Item>): seq<string> {
    if stream == [] then []
    else if StartsWithComment(stream) then ["#" + stream[0].event.text] + CommentTexts(stream[1..])
    else CommentTexts(stream[1..])
  }

  lemma {:induction false} CommentTextsConcat(a: seq<Item>, b: seq<Item>)
    ensures CommentTexts(a + b) == CommentTexts(a) + CommentTexts(b)
  {
    if a == [] {
      assert a + b == b;
    } else {
      CommentTextsConcat(a[1..], b);
      assert (a + b)[1..] == a[1..] + b;
    }
  }

  lemma CommentTextsSplit(s: seq<Item>, k: nat)
    requires k <= |s|
    ensures CommentTexts(s) == CommentTexts(s[..k]) + CommentTexts(s[k..])
  {
    CommentTextsConcat(s[..k], s[k..]);
    assert s[..k] + s[k..] == s;
  }
}
