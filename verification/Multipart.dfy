/** Parsing an uploaded multipart body (section 5.1.1 of RFC 2046) and its part headers. */
module Multipart {
  import opened Texts

  const CRLF := "\r\n"
  const HEADERS_END := "\r\n\r\n"

  datatype Part = Part(name: string, filename: string, contentType: string, data: string)

  // ---- Headers ------------------------------------------------------------------------

  function LowerChar(c: char): char { if 'A' <= c <= 'Z' then (c as int + 32) as char else c }

  function Lower(s: string): string { Each(s, LowerChar) }

  /** Where a header with this name starts, whatever its case, or -1. */
  function FindHeader(headers: string, name: string): (at: int)
    ensures at == -1 || 0 <= at < |headers|
  {
    Find(Lower(headers), Lower(name) + ":", 0)
  }

  /** From one position up to the next needle, or to the end. */
  function UpTo(s: string, needle: string, from: nat): string
    requires from <= |s|
  {
    var end := Find(s, needle, from);
    if end == -1 then s[from..] else s[from..end]
  }

  /** The quoted value of a parameter in a header line; empty when it is not there. */
  function LineParam(line: string, param: string): string {
    var at := Find(Lower(line), Lower(param) + "=\"", 0);
    if at == -1 then []
    else
      var start := at + |param| + 2;
      var end := Find(line, "\"", start);
      if end == -1 then [] else line[start..end]
  }

  function DispositionParam(headers: string, param: string): string {
    var at := FindHeader(headers, "Content-Disposition");
    if at == -1 then [] else LineParam(UpTo(headers, CRLF, at), param)
  }

  function DropEndSpaces(s: string): string {
    if s != [] && s[|s| - 1] == ' ' then DropEndSpaces(s[..|s| - 1]) else s
  }

  /** A header value without its parameters and surrounding spaces. */
  function Clean(value: string): string { DropEndSpaces(UpTo(value, ";", 0)) }

  function PartContentType(headers: string): string {
    var at := FindHeader(headers, "Content-Type");
    if at == -1 then []
    else
      var colon := Find(headers, ":", at);
      if colon == -1 then []
      else
        Clean(UpTo(headers, CRLF, SkipSpaces(headers, colon + 1)))
  }

  method ExtractDispositionParam(headers: string, param: string) returns (r: string)
    ensures r == DispositionParam(headers, param)
  {
    hide Find, FindHeader, Lower;
    var hpos := FindHeader(headers, "Content-Disposition");
    if hpos == -1 {
      return [];
    }
    var lineEnd := Find(headers, CRLF, hpos);
    var line := if lineEnd == -1 then headers[hpos..] else headers[hpos..lineEnd];
    var ppos := Find(Lower(line), Lower(param) + "=\"", 0);
    if ppos == -1 {
      return [];
    }
    var valStart := ppos + |param| + 2;
    var valEnd := Find(line, "\"", valStart);
    return if valEnd == -1 then [] else line[valStart..valEnd];
  }

  method ExtractPartContentType(headers: string) returns (ct: string)
    ensures ct == PartContentType(headers)
  {
    hide Find, FindHeader, Lower;
    var hpos := FindHeader(headers, "Content-Type");
    if hpos == -1 {
      return [];
    }
    var pos := Find(headers, ":", hpos);
    if pos == -1 {
      return [];
    }
    pos := pos + 1;
    ghost var start := pos;
    while pos < |headers| && headers[pos] == ' '
      invariant start <= pos <= |headers|
      invariant SkipSpaces(headers, start) == SkipSpaces(headers, pos)
    {
      pos := pos + 1;
    }
    var end := Find(headers, CRLF, pos);
    ct := if end == -1 then headers[pos..] else headers[pos..end];
    var semi := Find(ct, ";", 0);
    if semi != -1 {
      ct := ct[..semi];
    }
    while ct != [] && ct[|ct| - 1] == ' '
      invariant DropEndSpaces(ct) == PartContentType(headers)
    {
      ct := ct[..|ct| - 1];
    }
  }

  /** The boundary that a Content-Type header value names; empty when it names none. */
  function Boundary(ct: string): string {
    var at := Find(ct, "boundary=", 0);
    if at == -1 then []
    else if at + 9 < |ct| && ct[at + 9] == '"' then
      var end := Find(ct, "\"", at + 10);
      if end == -1 then [] else ct[at + 10..end]
    else ct[at + 9..TokenEnd(ct, at + 9)]
  }

  /** find_first_of: the next separator, or the end. */
  function TokenEnd(s: string, from: nat): (r: nat)
    requires from <= |s|
    ensures from <= r <= |s|
    decreases |s| - from
  {
    if from == |s| || s[from] in "; \t\r\n" then from else TokenEnd(s, from + 1)
  }

  method ExtractBoundary(ct: string) returns (r: string)
    ensures r == Boundary(ct)
  {
    var pos := Find(ct, "boundary=", 0);
    if pos == -1 {
      return [];
    }
    pos := pos + 9;
    if pos < |ct| && ct[pos] == '"' {
      pos := pos + 1;
      var end := Find(ct, "\"", pos);
      return if end == -1 then [] else ct[pos..end];
    }
    return ct[pos..TokenEnd(ct, pos)];
  }

  // ---- The body ---------------------------------------------------------------------------

  /** What follows a delimiter at `pos` on: the part, if there is a whole one, and the
      rest. The delimiter is at least the two dashes. */
  function PartsFrom(body: string, delim: string, pos: int): seq<Part>
    requires |delim| >= 2 && (pos == -1 || Matches(body, delim, pos))
    decreases if pos == -1 then 0 else |body| - pos + 1
  {
    if pos == -1 then []
    else
      var start := pos + |delim|;
      if !Matches(body, CRLF, start) then []
      else
        var headersEnd := Find(body, HEADERS_END, start + 2);
        if headersEnd == -1 then []
        else
          var dataEnd := Find(body, CRLF + delim, headersEnd + 4);
          if dataEnd == -1 then []
          else
            [PartOf(body[start + 2..headersEnd], body[headersEnd + 4..dataEnd])]
            + PartsFrom(body, delim, Find(body, delim, dataEnd + 2))
  }

  function PartOf(headers: string, data: string): Part {
    Part(DispositionParam(headers, "name"), DispositionParam(headers, "filename"), PartContentType(headers), data)
  }

  function Parts(body: string, boundary: string): seq<Part> {
    var delim := "--" + boundary;
    PartsFrom(body, delim, Find(body, delim, 0))
  }

  /** No whole part follows. */
  lemma NoMoreParts(body: string, delim: string, pos: int)
    requires |delim| >= 2 && Matches(body, delim, pos)
    requires var start := pos + |delim|;
             !Matches(body, CRLF, start) || Find(body, HEADERS_END, start + 2) == -1
             || Find(body, CRLF + delim, Find(body, HEADERS_END, start + 2) + 4) == -1
    ensures PartsFrom(body, delim, pos) == []
  {
    hide Find, Matches, PartOf;
  }

  lemma OneMorePart(body: string, delim: string, pos: int, headersEnd: nat, dataEnd: nat)
    requires |delim| >= 2 && Matches(body, delim, pos) && Matches(body, CRLF, pos + |delim|)
    requires headersEnd == Find(body, HEADERS_END, pos + |delim| + 2)
    requires dataEnd == Find(body, CRLF + delim, headersEnd + 4)
    ensures pos + |delim| + 2 <= headersEnd && headersEnd + 4 <= dataEnd && dataEnd + 2 <= |body|
    ensures PartsFrom(body, delim, pos)
         == [PartOf(body[pos + |delim| + 2..headersEnd], body[headersEnd + 4..dataEnd])]
            + PartsFrom(body, delim, Find(body, delim, dataEnd + 2))
  {
    hide Find, PartOf;
  }

  lemma IsCrLf(body: string, pos: nat)
    ensures Matches(body, CRLF, pos) <==> pos + 1 < |body| && body[pos] == '\r' && body[pos + 1] == '\n'
  {
    if pos + 2 <= |body| {
      assert body[pos..pos + 2] == [body[pos], body[pos + 1]];
    }
  }

  method ParseMultipart(body: string, boundary: string) returns (parts: seq<Part>)
    ensures parts == Parts(body, boundary)
  {
    hide DispositionParam, PartContentType, PartsFrom, Find, Matches;
    parts := [];
    var delim := "--" + boundary;
    var pos := Find(body, delim, 0);
    while pos != -1
      invariant pos == -1 || (0 <= pos && Matches(body, delim, pos))
      invariant Parts(body, boundary) == parts + PartsFrom(body, delim, pos)
      decreases if pos == -1 then 0 else |body| - pos + 1
    {
      ghost var at := pos;
      pos := pos + |delim|;
      IsCrLf(body, pos);
      if pos + 1 < |body| && body[pos] == '-' && body[pos + 1] == '-' {
        NoMoreParts(body, delim, at);
        return;
      }
      if pos + 1 < |body| && body[pos] == '\r' && body[pos + 1] == '\n' {
        pos := pos + 2;
      } else {
        NoMoreParts(body, delim, at);
        return;
      }
      var headersEnd := Find(body, HEADERS_END, pos);
      if headersEnd == -1 {
        NoMoreParts(body, delim, at);
        return;
      }
      var dataStart := headersEnd + 4;
      var nextDelim := Find(body, CRLF + delim, dataStart);
      if nextDelim == -1 {
        NoMoreParts(body, delim, at);
        return;
      }
      OneMorePart(body, delim, at, headersEnd, nextDelim);
      var headers := body[pos..headersEnd];
      var name := ExtractDispositionParam(headers, "name");
      var filename := ExtractDispositionParam(headers, "filename");
      var contentType := ExtractPartContentType(headers);
      parts := parts + [Part(name, filename, contentType, body[dataStart..nextDelim])];
      pos := nextDelim + 2;
      pos := Find(body, delim, pos);
    }
    NothingFrom(body, delim);
  }

  lemma NothingFrom(body: string, delim: string)
    requires |delim| >= 2
    ensures PartsFrom(body, delim, -1) == []
  {
  }
}
