/** An upload body is taken apart into the parts it was put together from. */
module MultipartProofs {
  import opened Wrappers
  import opened Texts
  import opened Multipart
  import opened MultipartHeaders

  // ---- Any body ------------------------------------------------------------------------------

  /** The text of a part between two delimiters. */
  datatype Block = Block(headers: string, data: string)

  /** Blocks after their delimiters, and what follows the last delimiter. */
  function Body(blocks: seq<Block>, delim: string, tail: string): string {
    if blocks == [] then delim + tail
    else delim + CRLF + blocks[0].headers + HEADERS_END + blocks[0].data + CRLF + Body(blocks[1..], delim, tail)
  }

  /** The headers run up to the first blank line, the data up to the first delimiter
      line. */
  predicate IsBlock(b: Block, delim: string) {
    NotBefore(b.headers, HEADERS_END) && NotBefore(b.data, CRLF + delim)
  }

  /** After the last delimiter: no line end, or no blank line, or no delimiter line after
      the first blank line. */
  ghost predicate NoBlock(tail: string, delim: string) {
    || !(CRLF <= tail)
    || !Occurs(tail[2..], HEADERS_END)
    || exists h, rest :: EndsOpen(tail, h, rest, delim)
  }

  predicate EndsOpen(tail: string, h: string, rest: string, delim: string) {
    tail == CRLF + h + HEADERS_END + rest && NotBefore(h, HEADERS_END) && !Occurs(rest, CRLF + delim)
  }

  function ReadBlocks(blocks: seq<Block>): seq<Part> {
    seq(|blocks|, i requires 0 <= i < |blocks| => PartOf(blocks[i].headers, blocks[i].data))
  }

  lemma NothingBefore(needle: string)
    ensures NotBefore([], needle)
  {
  }

  /** The pieces of a body, cut at each of the places where the parser looks. */
  lemma Cuts(pre: string, delim: string, h: string, data: string, rest: string, body: string)
    requires body == pre + delim + CRLF + h + HEADERS_END + data + CRLF + (delim + rest)
    ensures body == pre + delim + (CRLF + h + HEADERS_END + data + CRLF + (delim + rest))
    ensures body == (pre + delim) + CRLF + (h + HEADERS_END + data + CRLF + (delim + rest))
    ensures body == (pre + delim + CRLF) + h + HEADERS_END + (data + CRLF + (delim + rest))
    ensures body == (pre + delim + CRLF + h + HEADERS_END) + data + (CRLF + delim) + rest
    ensures body == (pre + delim + CRLF + h + HEADERS_END + data + CRLF) + [] + delim + rest
  {
  }

  lemma MatchHere(a: string, b: string, c: string)
    ensures Matches(a + b + c, b, |a|)
  {
    assert (a + b + c)[|a|..|a| + |b|] == b;
  }

  lemma FoundPiece(a: string, h: string, needle: string, rest: string, body: string)
    requires NotBefore(h, needle) && body == a + h + needle + rest
    ensures Find(body, needle, |a|) == |a| + |h| && |a| + |h| <= |body| && body[|a|..|a| + |h|] == h
  {
    hide *;
    FindAfter(a, h, needle, rest);
    Piece(a, h, needle, rest);
  }

  lemma Piece(a: string, b: string, c: string, d: string)
    ensures |a| + |b| <= |a + b + c + d| && (a + b + c + d)[|a|..|a| + |b|] == b
  {
  }

  lemma Lengths(pre: string, delim: string, h: string, data: string)
    ensures |pre + delim| == |pre| + |delim| && |pre + delim + CRLF| == |pre| + |delim| + 2
    ensures |pre + delim + CRLF + h + HEADERS_END| == |pre + delim + CRLF| + |h| + 4
    ensures |pre + delim + CRLF + h + HEADERS_END + data + CRLF| == |pre + delim + CRLF + h + HEADERS_END| + |data| + 2
  {
  }

  /** The parser's round, given where it finds what it looks for: a, b and c are what
      stands before the headers, the data and the next delimiter. */
  lemma Round(body: string, delim: string, pos: nat, a: string, h: string, b: string, data: string, c: string,
              r: string, s: string)
    requires |delim| >= 2 && Matches(body, delim, pos) && Matches(body, CRLF, pos + |delim|)
    requires |a| == pos + |delim| + 2 && |b| == |a| + |h| + 4 && |c| == |b| + |data| + 2
    requires body == a + h + HEADERS_END + r && NotBefore(h, HEADERS_END)
    requires body == b + data + (CRLF + delim) + s && NotBefore(data, CRLF + delim)
    requires body == c + [] + delim + s
    ensures PartsFrom(body, delim, pos) == [PartOf(h, data)] + PartsFrom(body, delim, |c|)
  {
    hide PartOf, PartsFrom, Find, Matches, NotBefore;
    FoundPiece(a, h, HEADERS_END, r, body);
    FoundPiece(b, data, CRLF + delim, s, body);
    NothingBefore(delim);
    FoundPiece(c, [], delim, s, body);
    OneMorePart(body, delim, pos, |a| + |h|, |b| + |data|);
  }

  /** A block at the front of what follows a delimiter. */
  lemma BlockAt(pre: string, delim: string, b: Block, rest: string, body: string)
    requires |delim| >= 2 && IsBlock(b, delim)
    requires body == pre + delim + CRLF + b.headers + HEADERS_END + b.data + CRLF + (delim + rest)
    ensures Matches(body, delim, |pre|)
    ensures PartsFrom(body, delim, |pre|)
         == [PartOf(b.headers, b.data)]
            + PartsFrom(body, delim, |pre + delim + CRLF + b.headers + HEADERS_END + b.data + CRLF|)
  {
    var h, data := b.headers, b.data;
    assert NotBefore(h, HEADERS_END) && NotBefore(data, CRLF + delim);
    hide *;
    Cuts(pre, delim, h, data, rest, body);
    Lengths(pre, delim, h, data);
    MatchHere(pre, delim, CRLF + h + HEADERS_END + data + CRLF + (delim + rest));
    MatchHere(pre + delim, CRLF, h + HEADERS_END + data + CRLF + (delim + rest));
    Round(body, delim, |pre|, pre + delim + CRLF, h, pre + delim + CRLF + h + HEADERS_END, data,
          pre + delim + CRLF + h + HEADERS_END + data + CRLF, data + CRLF + (delim + rest), rest);
  }

  lemma NoMatchAfter(s: string, a: string, t: string, needle: string, j: nat)
    requires s == a + t + [] && !Occurs(t, needle) && |a| <= j
    ensures !Matches(s, needle, j)
  {
    hide *;
    if j + |needle| <= |s| {
      MatchInside(a, t, [], needle, j - |a|);
      OccursMatch(t, needle, j - |a|);
    } else {
      BeyondTheEnd(s, needle, j);
    }
  }

  lemma NotFoundAfter(a: string, t: string, needle: string)
    requires !Occurs(t, needle)
    ensures Find(a + t, needle, |a|) == -1
  {
    var s := a + t;
    assert s == a + t + [];
    hide *;
    forall j | |a| <= j
      ensures !Matches(s, needle, j)
    {
      NoMatchAfter(s, a, t, needle, j);
    }
  }

  /** A line end or not, after a delimiter. */
  lemma TailStarts(a: string, tail: string)
    ensures Matches(a + tail, CRLF, |a|) <==> CRLF <= tail
  {
    IsCrLf(a + tail, |a|);
    if |tail| >= 2 {
      assert tail[..2] == [tail[0], tail[1]];
    }
  }

  lemma OpenEnd(a: string, tail: string, h: string, rest: string, delim: string, body: string)
    requires body == a + tail && EndsOpen(tail, h, rest, delim)
    ensures Find(body, HEADERS_END, |a| + 2) == |a| + 2 + |h|
    ensures Find(body, CRLF + delim, |a| + 2 + |h| + 4) == -1
  {
    OpenPieces(a, h, rest);
    hide Find, Matches, Occurs, NotBefore;
    FindAfter(a + CRLF, h, HEADERS_END, rest);
    NotFoundAfter(a + CRLF + h + HEADERS_END, rest, CRLF + delim);
  }

  lemma OpenPieces(a: string, h: string, rest: string)
    ensures a + (CRLF + h + HEADERS_END + rest) == a + CRLF + h + HEADERS_END + rest
    ensures |a + CRLF| == |a| + 2 && |a + CRLF + h + HEADERS_END| == |a| + 2 + |h| + 4
  {
  }

  lemma TailPieces(a: string, tail: string)
    requires CRLF <= tail
    ensures a + tail == (a + CRLF) + tail[2..] && |a + CRLF| == |a| + 2
  {
  }

  /** The last delimiter ends the list. */
  lemma EndAt(pre: string, delim: string, tail: string, body: string)
    requires |delim| >= 2 && body == pre + delim + tail && NoBlock(tail, delim)
    ensures Matches(body, delim, |pre|) && PartsFrom(body, delim, |pre|) == []
  {
    MatchHere(pre, delim, tail);
    var a := pre + delim;
    TailStarts(a, tail);
    hide Find, Matches, Occurs, PartsFrom, EndsOpen;
    if CRLF <= tail {
      TailPieces(a, tail);
      if !Occurs(tail[2..], HEADERS_END) {
        NotFoundAfter(a + CRLF, tail[2..], HEADERS_END);
      } else {
        var h, rest :| EndsOpen(tail, h, rest, delim);
        OpenEnd(a, tail, h, rest, delim, body);
      }
    }
    NoMoreParts(body, delim, |pre|);
  }

  lemma BodyStarts(blocks: seq<Block>, delim: string, tail: string) returns (rest: string)
    ensures Body(blocks, delim, tail) == delim + rest
  {
    if blocks == [] {
      rest := tail;
    } else {
      var b, more := blocks[0], Body(blocks[1..], delim, tail);
      BodyStep(blocks, delim, tail);
      hide Body;
      rest := CRLF + b.headers + HEADERS_END + b.data + CRLF + more;
      Reassociate(delim, b.headers, b.data, more);
    }
  }

  lemma EmptyBody(delim: string, tail: string)
    ensures Body([], delim, tail) == delim + tail
  {
  }

  lemma BodyStep(blocks: seq<Block>, delim: string, tail: string)
    requires blocks != []
    ensures Body(blocks, delim, tail)
         == delim + CRLF + blocks[0].headers + HEADERS_END + blocks[0].data + CRLF + Body(blocks[1..], delim, tail)
  {
  }

  lemma Reassociate(delim: string, h: string, data: string, r: string)
    ensures delim + CRLF + h + HEADERS_END + data + CRLF + r == delim + (CRLF + h + HEADERS_END + data + CRLF + r)
  {
  }

  lemma Prefixed(pre: string, delim: string, h: string, data: string, r: string)
    ensures pre + (delim + CRLF + h + HEADERS_END + data + CRLF + r)
         == pre + delim + CRLF + h + HEADERS_END + data + CRLF + r
  {
  }

  lemma {:induction false} BlocksFrom(pre: string, blocks: seq<Block>, delim: string, tail: string, body: string)
    requires |delim| >= 2 && NoBlock(tail, delim) && forall i :: 0 <= i < |blocks| ==> IsBlock(blocks[i], delim)
    requires body == pre + Body(blocks, delim, tail)
    ensures Matches(body, delim, |pre|) && PartsFrom(body, delim, |pre|) == ReadBlocks(blocks)
    decreases |blocks|
  {
    if blocks == [] {
      assert body == pre + delim + tail;
      hide PartsFrom, NoBlock;
      EndAt(pre, delim, tail, body);
    } else {
      var b, more := blocks[0], blocks[1..];
      assert IsBlock(b, delim);
      assert ReadBlocks(blocks) == [PartOf(b.headers, b.data)] + ReadBlocks(more);
      BodyStep(blocks, delim, tail);
      hide *;
      var rest := BodyStarts(more, delim, tail);
      Prefixed(pre, delim, b.headers, b.data, Body(more, delim, tail));
      BlockAt(pre, delim, b, rest, body);
      BlocksFrom(pre + delim + CRLF + b.headers + HEADERS_END + b.data + CRLF, more, delim, tail, body);
    }
  }

  /** Whatever a body is made of: after a preamble without the delimiter, each block gives
      one part, in order, up to a delimiter with no block after it. */
  lemma BlocksAreRead(blocks: seq<Block>, boundary: string, preamble: string, tail: string)
    requires NotBefore(preamble, "--" + boundary) && NoBlock(tail, "--" + boundary)
    requires forall i :: 0 <= i < |blocks| ==> IsBlock(blocks[i], "--" + boundary)
    ensures Parts(preamble + Body(blocks, "--" + boundary, tail), boundary) == ReadBlocks(blocks)
  {
    var delim := "--" + boundary;
    var body := preamble + Body(blocks, delim, tail);
    assert forall i :: 0 <= i < |blocks| ==> IsBlock(blocks[i], delim);
    hide PartsFrom, Matches, IsBlock, NoBlock, Body, Find, NotBefore, ReadBlocks;
    var rest := BodyStarts(blocks, delim, tail);
    FromNothing(preamble, delim, rest);
    FindAfter([], preamble, delim, rest);
    BlocksFrom(preamble, blocks, delim, tail, body);
  }

  lemma FromNothing(a: string, b: string, c: string)
    ensures a + (b + c) == [] + a + b + c
  {
  }

  lemma NoDelimiterNoParts(body: string, boundary: string)
    requires !Occurs(body, "--" + boundary)
    ensures Parts(body, boundary) == []
  {
    hide Occurs;
    OccursNot(body, "--" + boundary);
  }

  // ---- Every body is made of blocks ---------------------------------------------------------------

  /** A text is cut at the first occurrence of a needle. */
  lemma CutAt(s: string, needle: string) returns (h: string, rest: string)
    requires Occurs(s, needle)
    ensures s == h + needle + rest && NotBefore(h, needle)
  {
    var at := Find(s, needle, 0);
    h, rest := s[..at], s[at + |needle|..];
    assert s == h + needle + rest;
    FirstIsNotBefore(s, h, needle, rest);
  }

  lemma FirstIsNotBefore(s: string, h: string, needle: string, rest: string)
    requires s == h + needle + rest && forall j :: 0 <= j < |h| ==> !Matches(s, needle, j)
    ensures NotBefore(h, needle)
  {
    assert s == [] + (h + needle) + rest;
    hide Matches;
    forall j | 0 <= j < |h|
      ensures !Matches(h + needle, needle, j)
    {
      MatchInside([], h + needle, rest, needle, j);
    }
  }

  lemma CutPieces(delim: string, t: string, h: string, data: string, rest: string)
    requires CRLF <= t && t[2..] == h + HEADERS_END + (data + (CRLF + delim) + rest)
    ensures delim + t == delim + CRLF + h + HEADERS_END + data + CRLF + (delim + rest)
  {
  }

  lemma OpenCut(t: string, h: string, rest: string)
    requires CRLF <= t && t[2..] == h + HEADERS_END + rest
    ensures t == CRLF + h + HEADERS_END + rest
  {
  }

  lemma {:induction false} Splits(t: string, delim: string) returns (blocks: seq<Block>, tail: string)
    ensures delim + t == Body(blocks, delim, tail) && NoBlock(tail, delim)
    ensures forall i :: 0 <= i < |blocks| ==> IsBlock(blocks[i], delim)
    decreases |t|
  {
    hide Occurs, NotBefore, Body;
    blocks, tail := [], t;
    EmptyBody(delim, t);
    if CRLF <= t && Occurs(t[2..], HEADERS_END) {
      var h, more := CutAt(t[2..], HEADERS_END);
      if Occurs(more, CRLF + delim) {
        var data, rest := CutAt(more, CRLF + delim);
        CutPieces(delim, t, h, data, rest);
        var others;
        others, tail := Splits(rest, delim);
        blocks := [Block(h, data)] + others;
        BodyStep(blocks, delim, tail);
        assert blocks[1..] == others;
      } else {
        OpenCut(t, h, more);
        assert EndsOpen(t, h, more, delim);
      }
    }
  }

  /** And every body that holds the delimiter is made so. */
  lemma EveryBodySplits(body: string, boundary: string) returns (preamble: string, blocks: seq<Block>, tail: string)
    requires Occurs(body, "--" + boundary)
    ensures NotBefore(preamble, "--" + boundary) && NoBlock(tail, "--" + boundary)
    ensures forall i :: 0 <= i < |blocks| ==> IsBlock(blocks[i], "--" + boundary)
    ensures body == preamble + Body(blocks, "--" + boundary, tail)
  {
    var delim := "--" + boundary;
    hide Occurs, NotBefore, IsBlock, NoBlock, Body;
    var rest;
    preamble, rest := CutAt(body, delim);
    blocks, tail := Splits(rest, delim);
    assert preamble + delim + rest == preamble + (delim + rest);
  }

  // ---- Parts as they are written ------------------------------------------------------------------

  /** A part with the text of its header names and parameters, which may be in any case;
      with or without file name and type, and with either header first. */
  datatype Sent = Sent(name: string, filename: Option<string>, contentType: Option<string>, data: string,
                       head: string, between: string, typeHead: string, typeFirst: bool)

  function DispositionLine(p: Sent): string {
    p.head + p.name + (if p.filename.Some? then p.between + p.filename.value else "") + "\""
  }

  function Headers(p: Sent): string {
    if p.contentType.None? then DispositionLine(p)
    else if p.typeFirst then p.typeHead + p.contentType.value + CRLF + DispositionLine(p)
    else DispositionLine(p) + CRLF + p.typeHead + p.contentType.value
  }

  /** Fields that fit into one header line, and quoted names. */
  predicate OneLine(s: string) { Without(s, '\r') }

  predicate Quotable(s: string) { Without(s, '\r') && Without(s, '"') }

  /** No header's value holds the name of the other header if that is looked for behind
      it, and the data holds no delimiter line. */
  predicate Framed(p: Sent, delim: string) {
    && Styled(p.head, p.between) && Lower(p.typeHead) == TYPE + " "
    && Quotable(p.name) && (p.filename.Some? ==> Quotable(p.filename.value))
    && (p.contentType.Some? ==> OneLine(p.contentType.value))
    && (if p.contentType.Some? && p.typeFirst then !Occurs(Lower(p.contentType.value), DISPOSITION)
        else !Occurs(Lower(p.name), TYPE) && (p.filename.Some? ==> !Occurs(Lower(p.filename.value), TYPE)))
    && !Occurs(p.data, CRLF + delim)
  }

  /** The part that is read for a part that was written. */
  function Read(p: Sent): Part
    requires |p.between| == 13
  {
    Part(p.name,
         if p.filename.Some? then FilenameRead(p.name, p.between, p.filename.value) else "",
         if p.contentType.Some? then TypeRead(p.contentType.value) else "",
         p.data)
  }

  lemma LineIsQuiet(p: Sent)
    requires Styled(p.head, p.between) && Quotable(p.name) && (p.filename.Some? ==> Quotable(p.filename.value))
    ensures Without(DispositionLine(p), '\r') && |DispositionLine(p)| >= 39 && |p.between| == 13
  {
    StyleLengths(p.head, p.between);
    assert Without(DISPOSITION + FORM_DATA, '\r') && Without("\"; " + FILE_QUOTE, '\r');
    LowerWithout(p.head, '\r');
    LowerWithout(p.between, '\r');
    hide Lower;
  }

  lemma OneLineOccursNot(line: string)
    requires OneLine(line)
    ensures !Occurs(line, CRLF)
  {
    forall i | 0 <= i <= |line|
      ensures !Matches(line, CRLF, i)
    {
      IsCrLf(line, i);
    }
  }

  /** The blank line ends the headers: they have one carriage return, and a letter two
      places after it. */
  lemma HeadersEndAfter(a: string, b: string)
    requires OneLine(a) && OneLine(b) && b != []
    ensures NotBefore(a + CRLF + b, HEADERS_END)
  {
    var h := a + CRLF + b;
    forall j | 0 <= j < |h|
      ensures !Matches(h + HEADERS_END, HEADERS_END, j)
    {
      var s := h + HEADERS_END;
      MatchChars(s, HEADERS_END, j);
      assert s[j + 0] == h[j];
      if h[j] == '\r' && j + 4 <= |s| {
        assert j == |a|;
        assert s[j + 2] == b[0];
      }
    }
  }

  /** The delimiter line after the data. */
  lemma DelimAfterData(data: string, delim: string)
    requires OneLine(delim) && !Occurs(data, CRLF + delim)
    ensures NotBefore(data, CRLF + delim)
  {
    var needle := CRLF + delim;
    assert needle[1..] == "\n" + delim;
    NotBeforeOnce(data, needle);
  }

  /** The type line of a part that has one. */
  function TypeLine(p: Sent): string
    requires p.contentType.Some?
  {
    p.typeHead + p.contentType.value
  }

  lemma TypeLineIsQuiet(p: Sent)
    requires p.contentType.Some? && OneLine(p.contentType.value) && Lower(p.typeHead) == TYPE + " "
    ensures OneLine(TypeLine(p)) && |p.typeHead| == 14
  {
    assert Without(TYPE + " ", '\r') && |Lower(p.typeHead)| == |p.typeHead|;
    LowerWithout(p.typeHead, '\r');
    hide Lower;
  }

  lemma SentIsBlock(p: Sent, delim: string)
    requires OneLine(delim) && Framed(p, delim)
    ensures IsBlock(Block(Headers(p), p.data), delim)
  {
    LineIsQuiet(p);
    DelimAfterData(p.data, delim);
    if p.contentType.Some? {
      TypeLineIsQuiet(p);
    }
    hide NotBefore, Occurs, Lower, DispositionLine, Styled;
    if p.contentType.None? {
      NotBeforeWithout(Headers(p), HEADERS_END);
    } else if p.typeFirst {
      HeadersEndAfter(TypeLine(p), DispositionLine(p));
    } else {
      HeadersEndAfter(DispositionLine(p), TypeLine(p));
      assert DispositionLine(p) + CRLF + TypeLine(p) == Headers(p);
    }
  }

  // ---- Which header is found ----------------------------------------------------------------------

  lemma KeyStarts(low: string, a: string, rest: string, key: string)
    requires low == a + rest && key <= rest
    ensures low == [] + a + key + rest[|key|..]
  {
  }

  lemma KeyOnce(key: string)
    requires key == DISPOSITION || key == TYPE
    ensures key != [] && Without(key[1..], key[0])
  {
  }

  /** The first header with this name, after a text that does not hold the name. */
  lemma HeaderAfter(headers: string, a: string, rest: string, key: string)
    requires headers == a + rest && key <= Lower(rest) && !Occurs(Lower(a), key)
    requires key == DISPOSITION || key == TYPE
    ensures FirstAt(Lower(headers), key, |a|)
  {
    assert |Lower(a)| == |a|;
    KeyOnce(key);
    hide Lower, Find, NotBefore, Occurs, Without, Matches;
    LowerJoin(a, rest);
    KeyStarts(Lower(headers), Lower(a), Lower(rest), key);
    NotBeforeOnce(Lower(a), key);
    FindAfter([], Lower(a), key, Lower(rest)[|key|..]);
    FoundFirst(Lower(headers), key);
  }

  lemma TypeHasNo()
    ensures Without(TYPE, ' ') && Without(TYPE, '"')
  {
  }

  lemma DispositionIsNotType()
    ensures !Occurs(DISPOSITION, TYPE)
  {
    assert DISPOSITION[1..8] == "ontent-" && DISPOSITION[8] == 'd' && TYPE[8] == 't' && TYPE[0] == 'c';
    forall j | 0 <= j <= |DISPOSITION|
      ensures !Matches(DISPOSITION, TYPE, j)
    {
      if 1 <= j && j + 13 <= |DISPOSITION| {
        MatchChars(DISPOSITION, TYPE, j);
        assert DISPOSITION[j + 0] == DISPOSITION[1..8][j - 1];
      } else if j == 0 {
        MatchChars(DISPOSITION, TYPE, 0);
        assert DISPOSITION[0 + 8] != TYPE[8];
      }
    }
  }

  const BEFORE_QUOTE := "content-disposition: form-data; name="

  lemma TypeNotInDisposition()
    ensures !Occurs(BEFORE_QUOTE, TYPE)
  {
    assert BEFORE_QUOTE == DISPOSITION + [' '] + "form-data;" + [' '] + "name=";
    ShorterText("form-data;", TYPE);
    ShorterText("name=", TYPE);
    DispositionIsNotType();
    TypeHasNo();
    hide Occurs, Without;
    OccursApart(DISPOSITION, ' ', "form-data;", TYPE);
    OccursApart(DISPOSITION + [' '] + "form-data;", ' ', "name=", TYPE);
  }

  lemma NoTypeInFront(name: string)
    requires !Occurs(name, TYPE)
    ensures !Occurs(BEFORE_QUOTE + ['"'] + name, TYPE)
    ensures !Occurs(BEFORE_QUOTE + ['"'] + name + ['"'] + [], TYPE)
  {
    ShorterText([], TYPE);
    TypeNotInDisposition();
    TypeHasNo();
    hide Occurs, Without;
    OccursApart(BEFORE_QUOTE, '"', name, TYPE);
    OccursApart(BEFORE_QUOTE + ['"'] + name, '"', [], TYPE);
  }

  lemma LowerBareLine(head: string, name: string)
    requires Lower(head) == DISPOSITION + FORM_DATA
    ensures Lower(head + name + "\"") == BEFORE_QUOTE + ['"'] + Lower(name) + ['"'] + []
  {
    LowerJoin(head + name, "\"");
    LowerJoin(head, name);
    assert Lower("\"") == ['"'] && DISPOSITION + FORM_DATA == BEFORE_QUOTE + ['"'];
    hide Lower;
  }

  lemma LowerWholeLine(head: string, name: string, between: string, filename: string)
    requires Styled(head, between)
    ensures Lower(head + name + between + filename + "\"")
         == BEFORE_QUOTE + ['"'] + Lower(name) + ['"'] + "; filename=" + ['"'] + Lower(filename) + ['"'] + []
  {
    LowerFileLine(head, name, between, filename);
    LowerJoin(filename, "\"");
    assert Lower("\"") == ['"'] && DISPOSITION + FORM_DATA == BEFORE_QUOTE + ['"'];
    hide Lower;
    FilePieces(BEFORE_QUOTE, Lower(name), Lower(filename));
  }

  /** The disposition line does not hold the name of the other header. */
  lemma NoTypeInLine(p: Sent)
    requires Styled(p.head, p.between) && !Occurs(Lower(p.name), TYPE)
    requires p.filename.Some? ==> !Occurs(Lower(p.filename.value), TYPE)
    ensures !Occurs(Lower(DispositionLine(p)), TYPE)
  {
    hide Lower, Occurs;
    NoTypeInFront(Lower(p.name));
    if p.filename.None? {
      LowerBareLine(p.head, p.name);
      assert p.head + p.name + "" + "\"" == p.head + p.name + "\"";
    } else {
      NoTypeInFile(BEFORE_QUOTE + ['"'] + Lower(p.name), Lower(p.filename.value));
      LowerWholeLine(p.head, p.name, p.between, p.filename.value);
      hide Styled;
      assert DispositionLine(p) == p.head + p.name + p.between + p.filename.value + "\"";
    }
  }

  lemma FilePieces(start: string, name: string, filename: string)
    ensures start + ['"'] + name + "\"; " + FILE_QUOTE + (filename + ['"'])
         == start + ['"'] + name + ['"'] + "; filename=" + ['"'] + filename + ['"'] + []
  {
  }

  lemma NoTypeInFile(front: string, filename: string)
    requires !Occurs(front, TYPE) && !Occurs(filename, TYPE)
    ensures !Occurs(front + ['"'] + "; filename=" + ['"'] + filename + ['"'] + [], TYPE)
  {
    ShorterText([], TYPE);
    ShorterText("; filename=", TYPE);
    hide Occurs;
    OccursApart(front, '"', "; filename=", TYPE);
    OccursApart(front + ['"'] + "; filename=", '"', filename, TYPE);
    OccursApart(front + ['"'] + "; filename=" + ['"'] + filename, '"', [], TYPE);
  }

  lemma LineEndOccursNot(line: string, key: string)
    requires !Occurs(Lower(line), key) && (key == DISPOSITION || key == TYPE)
    ensures !Occurs(Lower(line + CRLF), key)
  {
    ShorterText("\n", key);
    assert Without(key, '\r');
    assert Lower(CRLF) == CRLF == ['\r'] + "\n";
    LowerJoin(line, CRLF);
    hide Lower, Occurs;
    OccursApart(Lower(line), '\r', "\n", key);
    assert Lower(line) + ['\r'] + "\n" == Lower(line) + CRLF;
  }

  lemma NoDispositionInType(p: Sent)
    requires p.contentType.Some? && Lower(p.typeHead) == TYPE + " " && !Occurs(Lower(p.contentType.value), DISPOSITION)
    ensures !Occurs(Lower(TypeLine(p)), DISPOSITION)
  {
    LowerJoin(p.typeHead, p.contentType.value);
    ShorterText(TYPE, DISPOSITION);
    hide Lower, Occurs;
    OccursApart(TYPE, ' ', Lower(p.contentType.value), DISPOSITION);
  }

  // ---- One part ----------------------------------------------------------------------------------

  /** A header line at the front, and what follows it. */
  lemma HeaderInFront(headers: string, key: string, line: string, rest: string)
    requires headers == line + rest && key <= Lower(line) && !Occurs(line, CRLF)
    requires (rest == [] || CRLF <= rest) && (key == DISPOSITION || key == TYPE)
    ensures HeaderLine(headers, key, [], line)
  {
    ShorterText([], key);
    assert Lower([]) == [];
    LowerJoin(line, rest);
    TailStarts(line, rest);
    hide Lower, Occurs, Matches;
    assert headers == [] + (line + rest) && [] + line == line;
    HeaderAfter(headers, [], line + rest, key);
  }

  /** A header line at the end, after another line. */
  lemma HeaderBehind(headers: string, key: string, other: string, line: string)
    requires headers == other + CRLF + line && key <= Lower(line) && !Occurs(line, CRLF)
    requires !Occurs(Lower(other), key) && (key == DISPOSITION || key == TYPE)
    ensures HeaderLine(headers, key, other + CRLF, line)
  {
    LineEndOccursNot(other, key);
    hide Lower, Occurs, Matches;
    HeaderAfter(headers, other + CRLF, line, key);
  }

  lemma TypeLineIs(p: Sent)
    requires p.contentType.Some?
    ensures Headers(p) == if p.typeFirst then TypeLine(p) + CRLF + DispositionLine(p)
                          else DispositionLine(p) + CRLF + TypeLine(p)
    ensures Headers(p) == if p.typeFirst then TypeLine(p) + (CRLF + DispositionLine(p))
                          else DispositionLine(p) + (CRLF + TypeLine(p))
  {
    hide DispositionLine;
    assert DispositionLine(p) + CRLF + p.typeHead + p.contentType.value
        == DispositionLine(p) + CRLF + (p.typeHead + p.contentType.value);
  }

  /** The disposition line is where it is looked for. */
  lemma DispositionIsFound(p: Sent, delim: string) returns (a: string)
    requires Framed(p, delim)
    ensures HeaderLine(Headers(p), DISPOSITION, a, DispositionLine(p))
  {
    var line := DispositionLine(p);
    LineIsQuiet(p);
    OneLineOccursNot(line);
    DispositionStarts(p);
    hide Lower, Occurs, DispositionLine, Styled, HeaderLine, TypeLine;
    if p.contentType.None? {
      a := [];
      assert Headers(p) == line + [];
      HeaderInFront(Headers(p), DISPOSITION, line, []);
    } else if p.typeFirst {
      NoDispositionInType(p);
      TypeLineIs(p);
      a := TypeLine(p) + CRLF;
      HeaderBehind(Headers(p), DISPOSITION, TypeLine(p), line);
    } else {
      TypeLineIs(p);
      a := [];
      HeaderInFront(Headers(p), DISPOSITION, line, CRLF + TypeLine(p));
    }
  }

  lemma DispositionStarts(p: Sent)
    requires Styled(p.head, p.between)
    ensures DISPOSITION <= Lower(DispositionLine(p))
  {
    var rest := p.name + (if p.filename.Some? then p.between + p.filename.value else "") + "\"";
    assert DispositionLine(p) == p.head + rest;
    LowerJoin(p.head, rest);
    hide Lower;
    assert Lower(p.head)[..20] == DISPOSITION;
  }

  lemma ParamsAreRead(p: Sent, delim: string)
    requires Framed(p, delim) && |p.between| == 13
    ensures DispositionParam(Headers(p), "name") == Read(p).name
    ensures DispositionParam(Headers(p), "filename") == Read(p).filename
  {
    var line := DispositionLine(p);
    var a := DispositionIsFound(p, delim);
    LineParams(p);
    hide Lower, Occurs, LineParam, DispositionLine, FilenameRead, HeaderLine, Headers;
    TheDisposition(Headers(p), a, line, "name");
    TheDisposition(Headers(p), a, line, "filename");
  }

  lemma LineParams(p: Sent)
    requires Styled(p.head, p.between) && |p.between| == 13
    requires Quotable(p.name) && (p.filename.Some? ==> Quotable(p.filename.value))
    ensures LineParam(DispositionLine(p), "name") == p.name
    ensures LineParam(DispositionLine(p), "filename") == Read(p).filename
  {
    StyleLengths(p.head, p.between);
    hide LineParam, EndsInFilename, Lower;
    if p.filename.None? {
      NameIsRead(p.head, p.name, []);
      NoFilenameIsRead(p.head, p.name);
      assert DispositionLine(p) == p.head + p.name + "\"" == p.head + p.name + "\"" + [];
    } else {
      var f := p.filename.value;
      NameIsRead(p.head, p.name, p.between[1..] + f + "\"");
      FilenameIsRead(p.head, p.name, p.between, f);
      NamePieces(p.head, p.name, p.between, f);
    }
  }

  lemma NamePieces(head: string, name: string, between: string, f: string)
    requires between != [] && between[0] == '"'
    ensures head + name + (between + f) + "\"" == head + name + "\"" + (between[1..] + f + "\"")
    ensures head + name + (between + f) + "\"" == head + name + between + f + "\""
  {
    assert between == "\"" + between[1..];
  }

  /** One more space in front makes no difference. */
  lemma SpaceBefore(mime: string)
    ensures TypeRead(" " + mime) == TypeRead(mime)
  {
    var k := SkipSpaces(mime, 0);
    SpacesSkipped(" " + mime, " ", mime, 0);
    assert (" " + mime)[1 + k..] == mime[k..];
    hide Clean;
  }

  lemma TypeStarts(p: Sent)
    requires p.contentType.Some? && Lower(p.typeHead) == TYPE + " " && |p.typeHead| == 14
    ensures TYPE <= Lower(TypeLine(p)) && p.typeHead[13] == ' '
    ensures TypeLine(p) == p.typeHead[..13] + (" " + p.contentType.value)
  {
    LowerJoin(p.typeHead, p.contentType.value);
    assert Lower(p.typeHead)[13] == ' ';
    assert Lower(p.typeHead)[..13] == TYPE;
  }

  lemma TypeIsFound(p: Sent, delim: string) returns (a: string)
    requires Framed(p, delim) && p.contentType.Some?
    ensures HeaderLine(Headers(p), TYPE, a, TypeLine(p))
  {
    var line := TypeLine(p);
    TypeLineIsQuiet(p);
    OneLineOccursNot(line);
    TypeStarts(p);
    TypeLineIs(p);
    hide Lower, Occurs, DispositionLine, Styled, TypeLine, HeaderLine, Headers;
    if p.typeFirst {
      a := [];
      HeaderInFront(Headers(p), TYPE, line, CRLF + DispositionLine(p));
    } else {
      NoTypeInLine(p);
      a := DispositionLine(p) + CRLF;
      HeaderBehind(Headers(p), TYPE, DispositionLine(p), line);
    }
  }

  lemma TypeOfPart(p: Sent, delim: string)
    requires Framed(p, delim) && |p.between| == 13
    ensures PartContentType(Headers(p)) == Read(p).contentType
  {
    hide Lower, Occurs, DispositionLine, TypeRead, HeaderLine, Styled, FilenameRead;
    if p.contentType.None? {
      NoTypeInLine(p);
      AbsentType(Headers(p));
    } else {
      var a := TypeIsFound(p, delim);
      TypeLineIsQuiet(p);
      TypeStarts(p);
      hide Headers, TypeLine;
      SpaceBefore(p.contentType.value);
      TypeIsRead(Headers(p), a, p.typeHead[..13], " " + p.contentType.value);
    }
  }

  lemma PartIsRead(p: Sent, delim: string)
    requires Framed(p, delim) && |p.between| == 13
    ensures PartOf(Headers(p), p.data) == Read(p)
  {
    hide DispositionParam, PartContentType, FilenameRead, TypeRead, Framed, Headers;
    ParamsAreRead(p, delim);
    TypeOfPart(p, delim);
  }

  // ---- The round trip ------------------------------------------------------------------------------

  function Blocks(parts: seq<Sent>): seq<Block> {
    seq(|parts|, i requires 0 <= i < |parts| => Block(Headers(parts[i]), parts[i].data))
  }

  predicate AllFramed(parts: seq<Sent>, delim: string) {
    forall i :: 0 <= i < |parts| ==> Framed(parts[i], delim) && |parts[i].between| == 13
  }

  function ReadAll(parts: seq<Sent>): seq<Part>
    requires forall i :: 0 <= i < |parts| ==> |parts[i].between| == 13
  {
    seq(|parts|, i requires 0 <= i < |parts| => Read(parts[i]))
  }

  /** A body made of parts, after any preamble that does not hold the delimiter and
      before any text with no further part in it, is taken apart into the same parts in
      the same order. */
  lemma MultipartRoundTrip(parts: seq<Sent>, boundary: string, preamble: string, tail: string)
    requires OneLine(boundary) && AllFramed(parts, "--" + boundary)
    requires NotBefore(preamble, "--" + boundary) && NoBlock(tail, "--" + boundary)
    ensures Parts(preamble + Body(Blocks(parts), "--" + boundary, tail), boundary) == ReadAll(parts)
  {
    var delim := "--" + boundary;
    assert OneLine(delim);
    var blocks := Blocks(parts);
    hide Framed, Headers, Parts, NotBefore, NoBlock, Body, Read, PartOf;
    forall i | 0 <= i < |parts|
      ensures IsBlock(blocks[i], delim) && PartOf(blocks[i].headers, blocks[i].data) == Read(parts[i])
    {
      SentIsBlock(parts[i], delim);
      PartIsRead(parts[i], delim);
    }
    hide IsBlock;
    BlocksAreRead(blocks, boundary, preamble, tail);
    assert ReadBlocks(blocks) == ReadAll(parts);
  }

  /** What a part holds: a file name or type that it was written without is empty. */
  function Meant(p: Sent): Part {
    Part(p.name, if p.filename.Some? then p.filename.value else "",
         if p.contentType.Some? then p.contentType.value else "", p.data)
  }

  /** A part comes back unchanged if and only if its file name is read, which fails when
      the name ends in the parameter's own name, and its type is written without
      parameters and surrounding spaces. */
  lemma PartUnchangedIff(p: Sent)
    requires |p.between| == 13
    ensures Read(p) == Meant(p)
       <==> && (p.filename.Some? && EndsInFilename(p.name) ==> p.filename.value == p.between[1..12])
            && (p.contentType.Some? ==> PlainType(p.contentType.value))
  {
    hide EndsInFilename, TypeRead, PlainType;
    if p.contentType.Some? {
      TypeUnchangedIff(p.contentType.value);
    }
  }

  // ---- No part holds a delimiter ----

  predicate NoneHolds(parts: seq<Part>, needle: string) {
    forall i :: 0 <= i < |parts| ==> !Occurs(parts[i].data, needle)
  }

  lemma {:induction false} DataFrom(body: string, delim: string, pos: int)
    requires |delim| >= 2 && (pos == -1 || Matches(body, delim, pos))
    ensures NoneHolds(PartsFrom(body, delim, pos), CRLF + delim)
    decreases if pos == -1 then 0 else |body| - pos + 1
  {
    hide PartOf, PartsFrom, Occurs, Find;
    if pos == -1 {
      NothingFrom(body, delim);
    } else {
      var start := pos + |delim|;
      var headersEnd := Find(body, HEADERS_END, start + 2);
      var dataEnd := if headersEnd == -1 then -1 else Find(body, CRLF + delim, headersEnd + 4);
      if !Matches(body, CRLF, start) || headersEnd == -1 || dataEnd == -1 {
        NoMoreParts(body, delim, pos);
      } else {
        OneMorePart(body, delim, pos, headersEnd, dataEnd);
        DataFrom(body, delim, Find(body, delim, dataEnd + 2));
        NoneInside(body, CRLF + delim, headersEnd + 4, dataEnd);
        DataOf(body[start + 2..headersEnd], body[headersEnd + 4..dataEnd]);
      }
    }
  }

  lemma DataOf(headers: string, data: string)
    ensures PartOf(headers, data).data == data
  {
  }

  /** Whatever the body, no part's data holds a delimiter line. */
  lemma DataHoldsNoDelimiter(body: string, boundary: string)
    ensures NoneHolds(Parts(body, boundary), CRLF + ("--" + boundary))
  {
    var delim := "--" + boundary;
    hide PartsFrom, Occurs;
    DataFrom(body, delim, Find(body, delim, 0));
  }

  // ---- The boundary ------------------------------------------------------------------------------

  const BOUNDARY := "boundary="

  /** A quoted boundary is read up to its closing quote. */
  lemma QuotedBoundary(pre: string, b: string, rest: string)
    requires NotBefore(pre, BOUNDARY) && Without(b, '"')
    ensures Boundary(pre + BOUNDARY + ("\"" + b + "\"" + rest)) == b
  {
    var s := pre + BOUNDARY + ("\"" + b + "\"" + rest);
    BoundaryFound(pre, "\"" + b + "\"" + rest);
    NotBeforeWithout(b, "\"");
    assert s == (pre + BOUNDARY + "\"") + b + "\"" + rest;
    hide Find, NotBefore, Matches;
    FindAfter(pre + BOUNDARY + "\"", b, "\"", rest);
    assert s[|pre| + 9] == '"';
    Piece(pre + BOUNDARY + "\"", b, "\"", rest);
  }

  lemma BoundaryFound(pre: string, rest: string)
    requires NotBefore(pre, BOUNDARY)
    ensures Find(pre + BOUNDARY + rest, BOUNDARY, 0) == |pre|
  {
    hide *;
    assert pre + BOUNDARY + rest == [] + pre + BOUNDARY + rest;
    FindAfter([], pre, BOUNDARY, rest);
  }

  const SEPARATORS := "; \t\r\n"

  predicate Token(b: string) { forall i :: 0 <= i < |b| ==> b[i] !in SEPARATORS }

  lemma {:induction false} TokenEnds(pre: string, b: string, rest: string, k: nat)
    requires k <= |b| && (rest == [] || rest[0] in SEPARATORS)
    ensures TokenEnd(pre + b + rest, |pre| + k) <= |pre| + |b|
    ensures TokenEnd(pre + b + rest, |pre| + k) == |pre| + |b| <==> Token(b[k..])
    decreases |b| - k
  {
    if k < |b| {
      assert (pre + b + rest)[|pre| + k] == b[k] == b[k..][0];
      TokenEnds(pre, b, rest, k + 1);
      assert b[k..] == [b[k]] + b[k + 1..];
    } else if rest != [] {
      assert (pre + b + rest)[|pre| + k] == rest[0];
    }
  }

  /** A boundary written without quotes, at the end or before a separator, is read if and
      only if it is a token that does not start with a quote. */
  lemma PlainBoundaryIff(pre: string, b: string, rest: string)
    requires NotBefore(pre, BOUNDARY) && b != [] && (rest == [] || rest[0] in SEPARATORS)
    ensures Boundary(pre + BOUNDARY + (b + rest)) == b <==> Token(b) && b[0] != '"'
  {
    var s := pre + BOUNDARY + (b + rest);
    BoundaryFound(pre, b + rest);
    TokenEnds(pre + BOUNDARY, b, rest, 0);
    assert s == pre + BOUNDARY + b + rest && b[0..] == b && s[|pre| + 9] == b[0];
    hide NotBefore, Matches, TokenEnd, Token;
    if b[0] == '"' {
      QuoteIsLeft(s, |pre|);
    } else {
      assert s[|pre| + 9..|pre| + 9 + |b|] == b;
    }
  }

  lemma FirstOfSlice(s: string, from: nat, to: nat)
    requires from < to <= |s|
    ensures s[from..to] != [] && s[from..to][0] == s[from]
  {
  }

  /** A boundary is read without a quote in front. */
  lemma QuoteIsLeft(s: string, at: nat)
    requires Find(s, BOUNDARY, 0) == at && at + 9 < |s| && s[at + 9] == '"'
    ensures Boundary(s) != [] ==> Boundary(s)[0] != '"'
  {
    hide TokenEnd, Matches;
    var end := Find(s, "\"", at + 10);
    if end > at + 10 {
      OneCharMatch(s, '"', at + 10);
      OneCharMatch(s, '"', end);
      FirstOfSlice(s, at + 10, end);
    }
  }

  /** No boundary is read where the value has none, or starts with a quote that is not
      closed. */
  lemma NoBoundary(ct: string, pre: string, rest: string)
    requires !Occurs(ct, BOUNDARY)
             || (ct == pre + BOUNDARY + "\"" + rest && NotBefore(pre, BOUNDARY) && Without(rest, '"'))
    ensures Boundary(ct) == []
  {
    if !Occurs(ct, BOUNDARY) {
      hide Occurs;
      OccursNot(ct, BOUNDARY);
    } else {
      assert ct == pre + BOUNDARY + ("\"" + rest);
      BoundaryFound(pre, "\"" + rest);
      forall j | |pre| + 10 <= j
        ensures !Matches(ct, "\"", j)
      {
        OneCharMatch(ct, '"', j);
      }
    }
  }
}
