/** What is read from the headers of a part, however they are written. */
module MultipartHeaders {
  import opened Texts
  import opened Multipart

  const DISPOSITION := "content-disposition:"
  const TYPE := "content-type:"

  predicate Without(s: string, c: char) { forall i :: 0 <= i < |s| ==> s[i] != c }

  // ---- What can come before a needle -------------------------------------------------------

  /** A text that does not hold the needle, before a needle that starts with a character
      it does not have again. */
  lemma NotBeforeOnce(h: string, needle: string)
    requires needle != [] && Without(needle[1..], needle[0]) && !Occurs(h, needle)
    ensures NotBefore(h, needle)
  {
    var s := h + needle;
    assert [] + h + needle == s;
    forall j | 0 <= j < |h|
      ensures !Matches(s, needle, j)
    {
      MatchChars(s, needle, j);
      if j + |needle| <= |h| {
        MatchInside([], h, needle, needle, j);
      } else {
        var k := |h| - j;
        assert s[j + k] == needle[0] && needle[k] == needle[1..][k - 1];
      }
    }
  }

  lemma NotBeforeWithout(h: string, needle: string)
    requires needle != [] && Without(h, needle[0])
    ensures NotBefore(h, needle)
  {
    forall j | 0 <= j < |h|
      ensures !Matches(h + needle, needle, j)
    {
      MatchChars(h + needle, needle, j);
      assert (h + needle)[j + 0] == h[j];
    }
  }

  /** A match has none of a character that the needle has not. */
  lemma NoMatchAcross(s: string, needle: string, j: int, c: char, at: int)
    requires Without(needle, c) && 0 <= j <= at < j + |needle| && at < |s| && s[at] == c
    ensures !Matches(s, needle, j)
  {
    if j + |needle| <= |s| {
      MatchChars(s, needle, j);
      assert s[j + (at - j)] != needle[at - j];
    }
  }

  /** So a text falls apart at such a character. */
  lemma OccursApart(a: string, c: char, b: string, needle: string)
    requires Without(needle, c) && needle != [] && !Occurs(a, needle) && !Occurs(b, needle)
    ensures !Occurs(a + [c] + b, needle)
  {
    var s := a + [c] + b;
    assert s == [] + a + ([c] + b) && s == (a + [c]) + b + [];
    hide Matches;
    forall i | 0 <= i <= |s|
      ensures !Matches(s, needle, i)
    {
      if i + |needle| <= |a| {
        MatchInside([], a, [c] + b, needle, i);
      } else if i <= |a| {
        NoMatchAcross(s, needle, i, c, |a|);
      } else if i + |needle| <= |s| {
        MatchInside(a + [c], b, [], needle, i - |a| - 1);
      } else {
        BeyondTheEnd(s, needle, i);
      }
    }
  }

  lemma BeyondTheEnd(s: string, needle: string, i: int)
    requires i + |needle| > |s|
    ensures !Matches(s, needle, i)
  {
  }

  lemma ShorterText(s: string, needle: string)
    requires |s| < |needle|
    ensures !Occurs(s, needle)
  {
  }

  lemma NoneInside(s: string, needle: string, from: nat, to: nat)
    requires from <= to <= |s| && forall j :: from <= j < to ==> !Matches(s, needle, j)
    requires needle != []
    ensures !Occurs(s[from..to], needle)
  {
    var b := s[from..to];
    assert s == s[..from] + b + s[to..];
    forall i | 0 <= i <= |b|
      ensures !Matches(b, needle, i)
    {
      if i + |needle| <= |b| {
        MatchInside(s[..from], b, s[to..], needle, i);
      }
    }
  }

  lemma OccursNot(s: string, needle: string)
    requires !Occurs(s, needle)
    ensures Find(s, needle, 0) == -1
  {
  }

  lemma FoundFirst(s: string, needle: string)
    requires Find(s, needle, 0) >= 0
    ensures FirstAt(s, needle, Find(s, needle, 0))
  {
  }

  lemma LowerJoin(a: string, b: string)
    ensures Lower(a + b) == Lower(a) + Lower(b)
  {
  }

  lemma LowerWithout(s: string, c: char)
    requires !('a' <= c <= 'z') && !('A' <= c <= 'Z')
    ensures Without(Lower(s), c) <==> Without(s, c)
  {
    forall i | 0 <= i < |s|
      ensures Lower(s)[i] == c <==> s[i] == c
    {
    }
  }

  lemma LowerKeys()
    ensures Lower("Content-Disposition") + ":" == DISPOSITION && Lower("Content-Type") + ":" == TYPE
    ensures Lower("name") + "=\"" == "name=\"" && Lower("filename") + "=\"" == FILE_QUOTE
  {
  }

  // ---- Any header text -----------------------------------------------------------------------

  /** After `a` comes the first header with this name, in any case, and its line. */
  predicate HeaderLine(headers: string, key: string, a: string, line: string) {
    && a + line <= headers && FirstAt(Lower(headers), key, |a|) && !Occurs(line, CRLF)
    && (|a + line| == |headers| || Matches(headers, CRLF, |a + line|))
  }

  lemma LineEnds(s: string, a: string, line: string)
    requires a + line <= s && !Occurs(line, CRLF) && (|a + line| == |s| || Matches(s, CRLF, |a + line|))
    ensures UpTo(s, CRLF, |a|) == line
  {
    hide Matches, Occurs;
    if |a + line| == |s| {
      assert s == a + line + [];
      forall j | |a| <= j
        ensures !Matches(s, CRLF, j)
      {
        if j + 2 <= |s| {
          MatchInside(a, line, [], CRLF, j - |a|);
          OccursMatch(line, CRLF, j - |a|);
        } else {
          BeyondTheEnd(s, CRLF, j);
        }
      }
    } else {
      LineThenEnd(s, a, line);
      var rest := s[|a + line| + 2..];
      assert CRLF[1..] == "\n";
      NotBeforeOnce(line, CRLF);
      hide Find, NotBefore;
      FindAfter(a, line, CRLF, rest);
    }
  }

  lemma OccursMatch(s: string, needle: string, i: int)
    requires !Occurs(s, needle) && 0 <= i <= |s|
    ensures !Matches(s, needle, i)
  {
  }

  lemma LineThenEnd(s: string, a: string, line: string)
    requires a + line <= s && Matches(s, CRLF, |a + line|)
    ensures |a + line| + 2 <= |s| && s == a + line + CRLF + s[|a + line| + 2..] && s[|a|..|a| + |line|] == line
  {
  }

  /** Parameters are looked for in the line of the first disposition header. */
  lemma TheDisposition(headers: string, a: string, line: string, param: string)
    requires HeaderLine(headers, DISPOSITION, a, line)
    ensures DispositionParam(headers, param) == LineParam(line, param)
  {
    LowerKeys();
    hide Lower, Occurs, LineParam, Matches, UpTo, Find;
    FindIs(Lower(headers), DISPOSITION, 0, |a|);
    LineEnds(headers, a, line);
  }

  /** The text up to the value's opening quote is the first place where the parameter's
      name, in any case, stands with that quote, and the value runs up to the next one. */
  predicate ParamAt(line: string, param: string, pre: string, value: string) {
    && pre + value + "\"" <= line && Without(value, '"')
    && |pre| >= |param| + 2 && FirstAt(Lower(line), Lower(param) + "=\"", |pre| - |param| - 2)
  }

  lemma ValueIsRead(line: string, param: string, pre: string, value: string)
    requires ParamAt(line, param, pre, value)
    ensures LineParam(line, param) == value
  {
    hide Without, Find, Lower, Matches, NotBefore;
    NotBeforeWithout(value, "\"");
    var rest := line[|pre + value| + 1..];
    assert line == pre + value + "\"" + rest;
    FindAfter(pre, value, "\"", rest);
    FindIs(Lower(line), Lower(param) + "=\"", 0, |pre| - |param| - 2);
  }

  lemma ReadIsValue(line: string, param: string) returns (pre: string)
    requires LineParam(line, param) != []
    ensures ParamAt(line, param, pre, LineParam(line, param))
  {
    hide Lower, Matches;
    var needle := Lower(param) + "=\"";
    var at := Find(Lower(line), needle, 0);
    var start := at + |param| + 2;
    FoundFirst(Lower(line), needle);
    FoundInside(Lower(line), needle, at);
    var end := Find(line, "\"", start);
    NoQuoteBetween(line, start, end);
    pre := line[..start];
    assert pre + line[start..end] + "\"" == line[..end + 1];
  }

  lemma FoundInside(s: string, needle: string, at: int)
    requires Matches(s, needle, at)
    ensures at + |needle| <= |s|
  {
  }

  lemma NoQuoteBetween(line: string, start: nat, end: nat)
    requires start <= end && Matches(line, "\"", end) && forall j :: start <= j < end ==> !Matches(line, "\"", j)
    ensures end < |line| && line[end] == '"' && Without(line[start..end], '"')
  {
    OneCharMatch(line, '"', end);
    forall k | start <= k < end
      ensures line[k] != '"'
    {
      OneCharMatch(line, '"', k);
    }
  }

  /** The line that starts at `at`. */
  lemma LineFrom(s: string, at: nat) returns (line: string)
    requires at <= |s|
    ensures s[..at] + line <= s && !Occurs(line, CRLF)
    ensures |s[..at] + line| == |s| || Matches(s, CRLF, |s[..at] + line|)
  {
    hide Matches, Occurs;
    var end := Find(s, CRLF, at);
    if end == -1 {
      NoneInside(s, CRLF, at, |s|);
      line := s[at..|s|];
    } else {
      FoundInside(s, CRLF, end);
      NoneInside(s, CRLF, at, end);
      line := s[at..end];
      assert s[..at] + line == s[..end];
    }
  }

  lemma LineOf(headers: string, key: string) returns (a: string, line: string)
    requires Find(Lower(headers), key, 0) >= 0 && key != []
    ensures |a| == Find(Lower(headers), key, 0) && HeaderLine(headers, key, a, line)
  {
    assert |Lower(headers)| == |headers|;
    hide Lower, Occurs, Matches;
    var at := Find(Lower(headers), key, 0);
    FoundFirst(Lower(headers), key);
    FoundInside(Lower(headers), key, at);
    a := headers[..at];
    line := LineFrom(headers, at);
  }

  /** A parameter is read from any header text if and only if it stands in the line of
      the first disposition header. */
  lemma ParamIff(headers: string, param: string, value: string)
    requires value != []
    ensures DispositionParam(headers, param) == value
       <==> exists a, line, pre :: HeaderLine(headers, DISPOSITION, a, line) && ParamAt(line, param, pre, value)
  {
    LowerKeys();
    hide HeaderLine, ParamAt, Lower, LineParam, UpTo, Find;
    if DispositionParam(headers, param) == value {
      var a, line := LineOf(headers, DISPOSITION);
      TheDisposition(headers, a, line, param);
      var pre := ReadIsValue(line, param);
    }
    if a, line, pre :| HeaderLine(headers, DISPOSITION, a, line) && ParamAt(line, param, pre, value) {
      TheDisposition(headers, a, line, param);
      ValueIsRead(line, param, pre, value);
    }
  }

  /** A parameter reads as empty without a disposition header, and where its line does
      not hold the parameter's name with an opening quote. */
  lemma AbsentParam(headers: string, param: string, a: string, line: string)
    requires !Occurs(Lower(headers), DISPOSITION)
             || (HeaderLine(headers, DISPOSITION, a, line) && !Occurs(Lower(line), Lower(param) + "=\""))
    ensures DispositionParam(headers, param) == []
  {
    LowerKeys();
    hide Lower, Occurs, UpTo, Find, HeaderLine;
    if !Occurs(Lower(headers), DISPOSITION) {
      OccursNot(Lower(headers), DISPOSITION);
    } else {
      TheDisposition(headers, a, line, param);
      OccursNot(Lower(line), Lower(param) + "=\"");
    }
  }

  // ---- The type of any header text -----------------------------------------------------------

  /** A type as it is read: no spaces around it, no parameters. */
  function TypeRead(mime: string): string { Clean(mime[SkipSpaces(mime, 0)..]) }

  lemma {:induction false} SpacesSkipped(s: string, pre: string, mime: string, k: nat)
    requires pre + mime <= s && k <= |mime| && (|pre + mime| < |s| ==> s[|pre + mime|] != ' ')
    ensures SkipSpaces(s, |pre| + k) == |pre| + SkipSpaces(mime, k)
    decreases |mime| - k
  {
    if k < |mime| {
      assert s[|pre| + k] == (pre + mime)[|pre| + k] == mime[k];
      if mime[k] == ' ' {
        SpacesSkipped(s, pre, mime, k + 1);
      }
    }
  }

  lemma LoweredColon(headers: string, at: nat)
    requires Matches(Lower(headers), TYPE, at)
    ensures at + 13 <= |headers| && headers[at + 12] == ':'
    ensures forall j :: at <= j < at + 12 ==> headers[j] != ':'
  {
    var low := Lower(headers);
    MatchChars(low, TYPE, at);
    assert low[at + 12] == TYPE[12];
    forall j | at <= j < at + 12
      ensures headers[j] != ':'
    {
      assert low[at + (j - at)] == TYPE[j - at];
    }
  }

  /** The colon after the header's name is the first one from there on. */
  lemma ColonFound(headers: string, at: nat)
    requires Matches(Lower(headers), TYPE, at)
    ensures at + 13 <= |headers| && Find(headers, ":", at) == at + 12
  {
    hide Find, Lower, Matches;
    LoweredColon(headers, at);
    OneCharMatch(headers, ':', at + 12);
    forall j | at <= j < at + 12
      ensures !Matches(headers, ":", j)
    {
      OneCharMatch(headers, ':', j);
    }
    FindIs(headers, ":", at, at + 12);
  }

  lemma TailWithout(s: string, k: nat, needle: string)
    requires k <= |s| && needle != [] && !Occurs(s, needle)
    ensures !Occurs(s[k..], needle)
  {
    assert s[k..] == s[k..|s|];
    forall j | k <= j < |s|
      ensures !Matches(s, needle, j)
    {
    }
    NoneInside(s, needle, k, |s|);
  }

  lemma Regrouped(a: string, head: string, mime: string)
    ensures a + (head + mime) == (a + head) + mime
  {
  }

  lemma CutPieces(a: string, line: string, k: nat)
    requires k <= |line|
    ensures (a + line[..k]) + line[k..] == a + line && |a + line[..k]| == |a| + k
  {
  }

  /** What is left of the line from its k-th character on. */
  lemma RestOfLine(headers: string, a: string, line: string, k: nat)
    requires a + line <= headers && k <= |line| && !Occurs(line, CRLF)
    requires |a + line| == |headers| || Matches(headers, CRLF, |a + line|)
    ensures UpTo(headers, CRLF, |a| + k) == line[k..]
  {
    assert CRLF != [];
    hide *;
    CutPieces(a, line, k);
    TailWithout(line, k, CRLF);
    LineEnds(headers, a + line[..k], line[k..]);
  }

  lemma RestOfValue(head: string, mime: string, k: nat)
    requires k <= |mime|
    ensures (head + mime)[|head| + k..] == mime[k..]
  {
  }

  lemma LeadIsSkipped(headers: string, a: string, head: string, mime: string)
    requires (a + head) + mime <= headers && |a + head| == |a| + 13
    requires |(a + head) + mime| == |headers| || Matches(headers, CRLF, |(a + head) + mime|)
    ensures |a| + 13 + SkipSpaces(mime, 0) <= |headers|
    ensures SkipSpaces(headers, |a| + 13) == |a| + 13 + SkipSpaces(mime, 0)
  {
    hide *;
    IsCrLf(headers, |(a + head) + mime|);
    SpacesSkipped(headers, a + head, mime, 0);
  }

  /** The value without its leading spaces is the rest of the line. */
  lemma TypeCut(headers: string, a: string, head: string, mime: string)
    requires a + (head + mime) <= headers && |head| == 13 && !Occurs(head + mime, CRLF)
    requires |a + (head + mime)| == |headers| || Matches(headers, CRLF, |a + (head + mime)|)
    ensures var from := |a| + 13 + SkipSpaces(mime, 0);
            && from <= |headers| && SkipSpaces(headers, |a| + 13) == from
            && UpTo(headers, CRLF, from) == mime[SkipSpaces(mime, 0)..]
  {
    hide *;
    var k := SkipSpaces(mime, 0);
    RestOfLine(headers, a, head + mime, 13 + k);
    RestOfValue(head, mime, k);
    Regrouped(a, head, mime);
    LeadIsSkipped(headers, a, head, mime);
  }

  /** The type is what follows the name of the first type header in its line. */
  lemma TypeIsRead(headers: string, a: string, head: string, mime: string)
    requires HeaderLine(headers, TYPE, a, head + mime) && |head| == 13
    ensures PartContentType(headers) == TypeRead(mime)
  {
    hide Lower, Occurs, Matches, Clean, UpTo, Find, SkipSpaces;
    LowerKeys();
    ColonFound(headers, |a|);
    TypeCut(headers, a, head, mime);
    FindIs(Lower(headers), TYPE, 0, |a|);
  }

  lemma AbsentType(headers: string)
    requires !Occurs(Lower(headers), TYPE)
    ensures PartContentType(headers) == []
  {
    LowerKeys();
    hide Lower, Occurs, Find;
    OccursNot(Lower(headers), TYPE);
  }

  predicate AllSpaces(s: string) { forall i :: 0 <= i < |s| ==> s[i] == ' ' }

  /** A type without parameters and without spaces around it. */
  predicate PlainType(mime: string) {
    Without(mime, ';') && (mime != [] ==> mime[0] != ' ' && mime[|mime| - 1] != ' ')
  }

  lemma {:induction false} EndSpacesDropped(v: string, tail: string)
    requires AllSpaces(tail) && (v != [] ==> v[|v| - 1] != ' ')
    ensures DropEndSpaces(v + tail) == v
    decreases |tail|
  {
    if tail == [] {
      assert v + tail == v;
    } else {
      assert (v + tail)[..|v + tail| - 1] == v + tail[..|tail| - 1];
      EndSpacesDropped(v, tail[..|tail| - 1]);
    }
  }

  lemma {:induction false} LeadSkipped(lead: string, rest: string, k: nat)
    requires AllSpaces(lead) && (rest != [] ==> rest[0] != ' ') && k <= |lead|
    ensures SkipSpaces(lead + rest, k) == |lead|
    decreases |lead| - k
  {
    if k < |lead| {
      LeadSkipped(lead, rest, k + 1);
    }
  }

  lemma UpToSemicolon(s: string, params: string)
    requires Without(s, ';') && (params == [] || params[0] == ';')
    ensures UpTo(s + params, ";", 0) == s
  {
    if params == [] {
      forall j | 0 <= j < |s|
        ensures !Matches(s, ";", j)
      {
        MatchChars(s, ";", j);
        assert s[j + 0] != ";"[0];
      }
      assert s + params == s;
    } else {
      assert s + params == [] + s + ";" + params[1..];
      NotBeforeWithout(s, ";");
      hide Find, NotBefore;
      FindAfter([], s, ";", params[1..]);
    }
  }

  /** However a type is written, with spaces around it and parameters after it. */
  lemma TypeIsCleaned(lead: string, mime: string, tail: string, params: string)
    requires PlainType(mime) && AllSpaces(lead) && AllSpaces(tail) && (params == [] || params[0] == ';')
    requires mime == [] ==> tail == []
    ensures TypeRead(lead + (mime + tail + params)) == mime
  {
    LeadSkipped(lead, mime + tail + params, 0);
    assert (lead + (mime + tail + params))[|lead|..] == mime + tail + params;
    assert Without(mime + tail, ';');
    UpToSemicolon(mime + tail, params);
    EndSpacesDropped(mime, tail);
  }

  lemma {:induction false} DropsSpaces(s: string)
    ensures DropEndSpaces(s) <= s
    ensures DropEndSpaces(s) == s <==> s == [] || s[|s| - 1] != ' '
    decreases |s|
  {
    if s != [] && s[|s| - 1] == ' ' {
      DropsSpaces(s[..|s| - 1]);
    }
  }

  lemma CutAtSemicolon(s: string)
    ensures UpTo(s, ";", 0) <= s
    ensures UpTo(s, ";", 0) == s <==> Without(s, ';')
  {
    var end := Find(s, ";", 0);
    if end == -1 {
      forall i | 0 <= i < |s|
        ensures s[i] != ';'
      {
        MatchChars(s, ";", i);
      }
    } else {
      MatchChars(s, ";", end);
      assert s[end + 0] == ';';
    }
  }

  lemma TypeUnchangedIff(mime: string)
    ensures TypeRead(mime) == mime <==> PlainType(mime)
  {
    var k := SkipSpaces(mime, 0);
    var value := mime[k..];
    CutAtSemicolon(value);
    DropsSpaces(UpTo(value, ";", 0));
    if k > 0 {
      assert |TypeRead(mime)| <= |value| < |mime|;
      assert mime[0] == ' ';
    } else {
      assert value == mime;
    }
  }

  // ---- The name ------------------------------------------------------------------------------

  const FORM_DATA := " form-data; name=\""
  const NAME_QUOTE := "name=\""
  const BEFORE_NAME := "content-disposition: form-data; "

  lemma NothingBeforeName()
    ensures NotBefore(BEFORE_NAME, NAME_QUOTE)
  {
    var h := BEFORE_NAME;
    var s := h + NAME_QUOTE;
    assert h[3] == 't' && h[6] == 't' && h[19] == ':';
    forall j | 0 <= j < |h|
      ensures !Matches(s, NAME_QUOTE, j)
    {
      MatchChars(s, NAME_QUOTE, j);
      assert NAME_QUOTE[0] == 'n' && NAME_QUOTE[1] == 'a';
      assert h[j] == 'n' ==> j == 2 || j == 5 || j == 18;
      assert s[j + 0] == h[j] && (j < 31 ==> s[j + 1] == h[j + 1]);
    }
  }

  lemma NameFound(rest: string)
    ensures FirstAt(DISPOSITION + FORM_DATA + rest, NAME_QUOTE, 32)
  {
    hide Find, Matches, NotBefore;
    NothingBeforeName();
    var s := DISPOSITION + FORM_DATA + rest;
    assert DISPOSITION + FORM_DATA == BEFORE_NAME + NAME_QUOTE;
    assert s == [] + BEFORE_NAME + NAME_QUOTE + rest;
    FindAfter([], BEFORE_NAME, NAME_QUOTE, rest);
    FoundFirst(s, NAME_QUOTE);
  }

  /** A quote-free name after the start of its line, which may be in any case. */
  lemma NameIsRead(head: string, name: string, rest: string)
    requires Without(name, '"') && Lower(head) == DISPOSITION + FORM_DATA
    ensures LineParam(head + name + "\"" + rest, "name") == name
  {
    var line := head + name + "\"" + rest;
    assert line == head + (name + "\"" + rest);
    LowerJoin(head, name + "\"" + rest);
    LowerKeys();
    NameFound(Lower(name + "\"" + rest));
    assert |Lower(head)| == |head| == 38;
    hide Lower, Matches, LineParam;
    ValueIsRead(line, "name", head, name);
  }

  // ---- The file name -------------------------------------------------------------------------

  const FILE_QUOTE := "filename=\""

  predicate EndsInFilename(name: string) {
    |name| >= 9 && Lower(name)[|name| - 9..] == "filename="
  }

  /** The last quote of a match is its tenth character, and its only one. */
  lemma FileMatch(s: string, j: int)
    requires 0 <= j && Matches(s, FILE_QUOTE, j)
    ensures j + 10 <= |s| && s[j] == 'f' && s[j + 9] == '"' && forall i :: j <= i < j + 9 ==> s[i] != '"'
    ensures s[j..j + 9] == "filename="
  {
    MatchChars(s, FILE_QUOTE, j);
    assert s[j + 0] == FILE_QUOTE[0] && s[j + 9] == FILE_QUOTE[9];
    forall i | j <= i < j + 9
      ensures s[i] != '"'
    {
      assert s[j + (i - j)] == FILE_QUOTE[i - j];
    }
    assert s[j..j + 9] == FILE_QUOTE[..9] == "filename=";
  }

  /** Before a quote-free text that follows the name's opening quote there is no match. */
  lemma NoFileInFront(x: string, s: string, j: int)
    requires Without(x, '"') && DISPOSITION + FORM_DATA + x <= s && 0 <= j && j + 9 < 38 + |x|
    ensures !Matches(s, FILE_QUOTE, j)
  {
    var d := DISPOSITION + FORM_DATA;
    assert |d| == 38;
    assert forall i :: 0 <= i < 38 ==> s[i] == d[i];
    assert forall i :: 38 <= i < 38 + |x| ==> s[i] == x[i - 38];
    assert d[28] == FORM_DATA[8] == 't';
    assert forall i :: 0 <= i < 37 ==> d[i] != '"';
    assert s[28] == d[28];
    if Matches(s, FILE_QUOTE, j) {
      FileMatch(s, j);
      assert false;
    }
  }

  /** The usual case: the parameter is the first match. */
  lemma FilenameFound(low: string)
    requires Without(low, '"') && !(|low| >= 9 && low[|low| - 9..] == "filename=")
    ensures NotBefore(DISPOSITION + FORM_DATA + low + "\"; ", FILE_QUOTE)
  {
    var h := DISPOSITION + FORM_DATA + low + "\"; ";
    var s := h + FILE_QUOTE;
    var n := 38 + |low|;
    assert DISPOSITION + FORM_DATA + low <= s;
    assert (DISPOSITION + FORM_DATA)[37] == '"' && s[37] == '"' && s[n] == '"' && s[n + 1] == ';' && s[n + 2] == ' ';
    assert forall i :: n + 3 <= i < n + 12 ==> s[i] == FILE_QUOTE[i - n - 3];
    forall j | 0 <= j < |h|
      ensures !Matches(s, FILE_QUOTE, j)
    {
      if j + 9 < n {
        NoFileInFront(low, s, j);
      } else {
        FileIsNotHere(low, s, j);
      }
    }
  }

  lemma FileIsNotHere(low: string, s: string, j: int)
    requires Without(low, '"') && !(|low| >= 9 && low[|low| - 9..] == "filename=")
    requires |s| == 38 + |low| + 13 && DISPOSITION + FORM_DATA + low <= s
    requires s[37] == '"' && s[38 + |low|] == '"' && s[38 + |low| + 1] == ';' && s[38 + |low| + 2] == ' '
    requires forall i :: 38 + |low| + 3 <= i < 38 + |low| + 12 ==> s[i] != '"'
    requires 38 + |low| <= j + 9 && j < 38 + |low| + 3
    ensures !Matches(s, FILE_QUOTE, j)
  {
    if |low| >= 9 {
      assert s[38 + |low| - 9..38 + |low|] == low[|low| - 9..];
    }
    if Matches(s, FILE_QUOTE, j) {
      FileMatch(s, j);
      assert false;
    }
  }

  /** The name ends in the parameter's name: its closing quote completes a match. */
  lemma NameTaken(low: string)
    requires Without(low, '"') && |low| >= 9 && low[|low| - 9..] == "filename="
    ensures NotBefore(DISPOSITION + FORM_DATA + low[..|low| - 9], FILE_QUOTE)
  {
    var h := DISPOSITION + FORM_DATA + low[..|low| - 9];
    var s := h + FILE_QUOTE;
    assert DISPOSITION + FORM_DATA + low[..|low| - 9] <= s;
    assert FILE_QUOTE[..9] == "filename=";
    assert s[..38 + |low|] == DISPOSITION + FORM_DATA + low;
    forall j | 0 <= j < |h|
      ensures !Matches(s, FILE_QUOTE, j)
    {
      NoFileInFront(low, s, j);
    }
  }

  lemma TakenLine(d: string, low: string, rest: string)
    requires |low| >= 9 && low[|low| - 9..] == "filename="
    ensures d + low + "\"; " + rest == [] + (d + low[..|low| - 9]) + FILE_QUOTE + ("; " + rest)
  {
    assert low == low[..|low| - 9] + "filename=";
    assert FILE_QUOTE == "filename=" + "\"";
  }

  lemma UsualLine(d: string, low: string, rest: string)
    ensures d + low + "\"; " + FILE_QUOTE + rest == [] + (d + low + "\"; ") + FILE_QUOTE + rest
  {
  }

  /** Where the file name parameter is found in the line. */
  lemma FileFound(low: string, rest: string)
    requires Without(low, '"')
    ensures FirstAt(DISPOSITION + FORM_DATA + low + "\"; " + FILE_QUOTE + rest, FILE_QUOTE,
                    if |low| >= 9 && low[|low| - 9..] == "filename=" then 38 + |low| - 9 else 38 + |low| + 3)
  {
    var d := DISPOSITION + FORM_DATA;
    if |low| >= 9 && low[|low| - 9..] == "filename=" {
      NameTaken(low);
      hide Find, Matches, NotBefore;
      assert d + low + "\"; " + FILE_QUOTE + rest == d + low + "\"; " + (FILE_QUOTE + rest);
      TakenLine(d, low, FILE_QUOTE + rest);
      FindAfter([], d + low[..|low| - 9], FILE_QUOTE, "; " + (FILE_QUOTE + rest));
    } else {
      FilenameFound(low);
      hide Find, Matches, NotBefore;
      UsualLine(d, low, rest);
      FindAfter([], d + low + "\"; ", FILE_QUOTE, rest);
    }
    FoundFirst(d + low + "\"; " + FILE_QUOTE + rest, FILE_QUOTE);
  }

  /** The start of a disposition line and what stands between name and file name, in any
      case. */
  predicate Styled(head: string, between: string) {
    Lower(head) == DISPOSITION + FORM_DATA && Lower(between) == "\"; " + FILE_QUOTE
  }

  lemma LowerFileLine(head: string, name: string, between: string, filename: string)
    requires Styled(head, between)
    ensures Lower(head + name + between + filename + "\"")
         == DISPOSITION + FORM_DATA + Lower(name) + "\"; " + FILE_QUOTE + Lower(filename + "\"")
  {
    LowerJoin(head + name + between, filename + "\"");
    LowerJoin(head + name, between);
    LowerJoin(head, name);
    assert head + name + between + filename + "\"" == head + name + between + (filename + "\"");
    hide Lower;
    assert DISPOSITION + FORM_DATA + Lower(name) + ("\"; " + FILE_QUOTE) + Lower(filename + "\"")
        == DISPOSITION + FORM_DATA + Lower(name) + "\"; " + FILE_QUOTE + Lower(filename + "\"");
  }

  lemma StyleLengths(head: string, between: string)
    requires Styled(head, between)
    ensures |head| == 38 && |between| == 13 && between[0] == '"' && between[12] == '"' && Without(between[1..12], '"')
  {
    var low := "\"; " + FILE_QUOTE;
    assert |Lower(head)| == |head| && |Lower(between)| == |between|;
    forall i | 0 <= i < 13
      ensures between[i] == '"' <==> low[i] == '"'
    {
      assert Lower(between)[i] == low[i];
    }
    assert forall i :: 1 <= i < 12 ==> low[i] != '"' by {
      assert forall i :: 3 <= i < 12 ==> low[i] == FILE_QUOTE[i - 3];
      assert low[1] == ';' && low[2] == ' ';
    }
  }

  lemma FilenameAt(head: string, name: string, between: string, filename: string, line: string)
    requires Without(name, '"') && Styled(head, between) && line == head + name + between + filename + "\""
    ensures FirstAt(Lower(line), Lower("filename") + "=\"",
                    if EndsInFilename(name) then 38 + |name| - 9 else 38 + |name| + 3)
  {
    LowerFileLine(head, name, between, filename);
    LowerWithout(name, '"');
    assert |Lower(name)| == |name|;
    LowerKeys();
    hide Find, Lower, Matches;
    FileFound(Lower(name), Lower(filename + "\""));
  }

  /** What is read as the file name: a name that ends in the parameter's own name, with
      its quote, is taken for the parameter. */
  function FilenameRead(name: string, between: string, filename: string): string
    requires |between| == 13
  {
    if EndsInFilename(name) then between[1..12] else filename
  }

  lemma FilePieces(head: string, name: string, between: string, filename: string)
    requires |head| == 38 && |between| == 13 && between[0] == '"' && between[12] == '"'
    ensures var line := head + name + between + filename + "\"";
            && (head + name + "\"") + between[1..12] + "\"" <= line && (head + name + between) + filename + "\"" <= line
            && |head + name + "\""| == 39 + |name| && |head + name + between| == 51 + |name|
  {
    assert between == "\"" + between[1..12] + "\"";
    assert head + name + between + filename + "\"" == (head + name + "\"") + between[1..12] + "\"" + (filename + "\"");
  }

  lemma FilenameIsRead(head: string, name: string, between: string, filename: string)
    requires Without(name, '"') && Without(filename, '"') && Styled(head, between) && |between| == 13
    ensures LineParam(head + name + between + filename + "\"", "filename") == FilenameRead(name, between, filename)
  {
    var line := head + name + between + filename + "\"";
    hide LineParam, EndsInFilename, Without, Lower, Matches, Styled;
    FilenameAt(head, name, between, filename, line);
    StyleLengths(head, between);
    FilePieces(head, name, between, filename);
    if EndsInFilename(name) {
      ValueIsRead(line, "filename", head + name + "\"", between[1..12]);
    } else {
      ValueIsRead(line, "filename", head + name + between, filename);
    }
  }

  /** A line without file name has at most the closing quote of the name to match, and no
      quote after that. */
  lemma NoFilenameIsRead(head: string, name: string)
    requires Without(name, '"') && Lower(head) == DISPOSITION + FORM_DATA
    ensures LineParam(head + name + "\"", "filename") == []
  {
    var line := head + name + "\"";
    var at := Find(Lower(line), FILE_QUOTE, 0);
    LowerKeys();
    if at != -1 && Find(line, "\"", at + 10) != -1 {
      LowerJoin(head + name, "\"");
      LowerJoin(head, name);
      LowerWithout(name, '"');
      assert |Lower(line)| == |line| == 39 + |name|;
      hide Lower;
      if at + 9 < 38 + |name| {
        NoFileInFront(Lower(name), Lower(line), at);
      }
      assert false;
    }
  }
}
