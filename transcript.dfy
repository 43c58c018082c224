/**
 * Session transcripts: one JSON record per line, each an already decoded message with the
 * outer `type`, the inner `message.role` and the inner `message.content`.
 */
module Transcript {
  import opened Wrappers
  import opened Strings

  /** An element of a content block list: a `"type": "text"` block with its `text` key, or any other. */
  datatype Block = TextBlock(text: Option<string>) | OtherBlock

  /** `message.content`: a string, a list of blocks, or any other JSON value. */
  datatype Content = Str(s: string) | Blocks(blocks: seq<Block>) | Other

  /**
   * One transcript record. `kind` is the outer `type`, `role` is `message.role`; a record
   * without `message` or without `content` has content `Str("")`, the default of `.get`.
   */
  datatype Message = Message(kind: Option<string>, role: Option<string>, content: Content)

  /** The JSON decoder applied to a stripped, non-blank line; None where `json.loads` raises. */
  type Parser = string -> Option<Message>

  /** The `text` of every text block, in order, with `""` for a missing key. */
  function BlockTexts(bs: seq<Block>): (r: seq<string>)
    ensures |r| <= |bs|
  {
    if bs == [] then []
    else match bs[0]
      case TextBlock(t) => [t.GetOr("")] + BlockTexts(bs[1..])
      case OtherBlock => BlockTexts(bs[1..])
  }

  /** The candidate texts flow 2 inspects: the string itself, or the text blocks' texts. */
  function Texts(c: Content): seq<string> {
    match c
    case Str(s) => [s]
    case Blocks(bs) => BlockTexts(bs)
    case Other => []
  }

  predicate HasTextBlock(bs: seq<Block>) {
    exists i :: 0 <= i < |bs| && bs[i].TextBlock?
  }

  /** The generator join over the blocks: a newline goes before every text block but the first. */
  function JoinBlocks(bs: seq<Block>): string {
    if bs == [] then ""
    else match bs[0]
      case OtherBlock => JoinBlocks(bs[1..])
      case TextBlock(t) =>
        if HasTextBlock(bs[1..]) then t.GetOr("") + "\n" + JoinBlocks(bs[1..]) else t.GetOr("")
  }

  /** `extract_text`: a string unchanged, a block list joined on newlines, anything else empty. */
  function ExtractText(c: Content): (r: string)
    ensures c.Str? ==> r == c.s
    ensures c.Other? ==> r == ""
  {
    match c
    case Str(s) => s
    case Blocks(bs) => JoinBlocks(bs)
    case Other => ""
  }

  lemma {:induction false} BlockTextsEmpty(bs: seq<Block>)
    ensures BlockTexts(bs) == [] <==> !HasTextBlock(bs)
  {
    if bs != [] {
      BlockTextsEmpty(bs[1..]);
      if bs[0].OtherBlock? {
        assert HasTextBlock(bs) ==> HasTextBlock(bs[1..]) by {
          if HasTextBlock(bs) {
            var i :| 0 <= i < |bs| && bs[i].TextBlock?;
            assert bs[1..][i - 1] == bs[i];
          }
        }
        assert HasTextBlock(bs[1..]) ==> HasTextBlock(bs) by {
          if HasTextBlock(bs[1..]) {
            var i :| 0 <= i < |bs[1..]| && bs[1..][i].TextBlock?;
            assert bs[i + 1] == bs[1..][i];
          }
        }
      } else {
        assert bs[0].TextBlock?;
      }
    }
  }

  lemma {:induction false} JoinBlocksIsJoin(bs: seq<Block>)
    ensures JoinBlocks(bs) == Join(BlockTexts(bs), "\n")
  {
    if bs != [] {
      JoinBlocksIsJoin(bs[1..]);
      BlockTextsEmpty(bs[1..]);
    }
  }

  /**
   * `extract_text` of a block list is the newline-join, in order, of the texts flow 2 looks at;
   * of a string it is the one text.
   */
  lemma ExtractTextJoinsTexts(c: Content)
    ensures c.Blocks? ==> ExtractText(c) == Join(Texts(c), "\n")
    ensures c.Str? ==> Texts(c) == [ExtractText(c)]
  {
    if c.Blocks? {
      JoinBlocksIsJoin(c.blocks);
    }
  }

  /** What one line of the file contributes: nothing when blank or undecodable. */
  function Record(line: string, parse: Parser): (r: seq<Message>)
    ensures |r| <= 1
    ensures r != [] ==> Strip(line) != [] && parse(Strip(line)) == Some(r[0])
  {
    var t := Strip(line);
    if t == [] then []
    else match parse(t)
      case Some(m) => [m]
      case None => []
  }

  /** The messages of the first lines, in file order. */
  function Records(lines: seq<string>, parse: Parser): (r: seq<Message>)
    ensures |r| <= |lines|
  {
    if lines == [] then []
    else Records(lines[..|lines| - 1], parse) + Record(lines[|lines| - 1], parse)
  }

  /** The messages of a transcript file; an unreadable file has none. */
  function Load(file: Option<string>, parse: Parser): seq<Message> {
    match file
    case None => []
    case Some(text) => Records(Lines(text), parse)
  }

  lemma {:induction false} RecordsAppend(xs: seq<string>, ys: seq<string>, parse: Parser)
    ensures Records(xs + ys, parse) == Records(xs, parse) + Records(ys, parse)
    decreases |ys|
  {
    if ys == [] {
      assert xs + ys == xs;
    } else {
      var n := |ys| - 1;
      assert (xs + ys)[..|xs + ys| - 1] == xs + ys[..n];
      RecordsAppend(xs, ys[..n], parse);
    }
  }

  /**
   * Appending records to a transcript whose last line is complete keeps every earlier message
   * at its index, so ledger indices stay meaningful as the session grows.
   */
  lemma LoadAppend(a: string, b: string, parse: Parser)
    requires EndsWithNewline(a)
    ensures Load(Some(a + b), parse) == Load(Some(a), parse) + Load(Some(b), parse)
  {
    LinesAppend(a, b);
    RecordsAppend(Lines(a), Lines(b), parse);
  }

  /** `load_transcript`: an unreadable file gives no messages, otherwise its lines are decoded. */
  method LoadTranscript(file: Option<string>, parse: Parser) returns (messages: seq<Message>)
    ensures messages == Load(file, parse)
  {
    messages := [];
    if file.Some? {
      var lines := Lines(file.value);
      messages := DecodeLines(lines, parse);
    }
  }

  /** The loop of `load_transcript`: strip each line, skip blanks and undecodable lines. */
  method DecodeLines(lines: seq<string>, parse: Parser) returns (messages: seq<Message>)
    ensures messages == Records(lines, parse)
  {
    messages := [];
    var i := 0;
    while i < |lines|
      invariant 0 <= i <= |lines|
      invariant messages == Records(lines[..i], parse)
    {
      assert lines[..i + 1][..i] == lines[..i];
      assert Records(lines[..i + 1], parse) == Records(lines[..i], parse) + Record(lines[i], parse);
      var line := Strip(lines[i]);
      if line != [] {
        var m := parse(line);
        if m.Some? {
          messages := messages + [m.value];
        }
      }
      i := i + 1;
    }
    assert lines[..i] == lines;
  }
}
