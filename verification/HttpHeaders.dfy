/**
  The header printer and reader of internal/httpserver/server.go, and what is read back of what was printed.
 */
module HttpHeaders {
  import opened Values
  import opened HttpText

  const CONTENT_LENGTH: string := "Content-Length"

  /** A missing body is not an empty one. */
  datatype Request = Request(verb: string, path: string, headers: map<string, string>, body: Option<string>)

  /** How the reading of a connection ends: a request for the handler, a fatal log entry or a panic. */
  datatype Reading = Served(request: Request, rest: string) | Fatal | Panic

  // ----- header names -----

  /** The first letter of each part is upper case and every other letter lower case. */
  function Norm(s: string): (r: string)
    ensures |r| == |s|
    ensures forall i :: 0 <= i < |s| ==> r[i] == NormAt(s, i)
  {
    seq(|s|, i requires 0 <= i < |s| => NormAt(s, i))
  }

  function NormAt(s: string, i: nat): char
    requires i < |s|
  {
    if i == 0 || s[i - 1] == '-' then Upper(s[i]) else Lower(s[i])
  }

  function Capitalised(part: string): string {
    if part == "" then part else [Upper(part[0])] + LowerAll(part[1..])
  }

  function CapitalisedAll(parts: seq<string>): seq<string> {
    seq(|parts|, i requires 0 <= i < |parts| => Capitalised(parts[i]))
  }

  lemma NormOfParts(s: string, k: nat)
    requires k < |s| && s[k] == '-' && forall i :: 0 <= i < k ==> s[i] != '-'
    ensures Norm(s) == Capitalised(s[..k]) + ['-'] + Norm(s[k + 1..])
  {
    NormOfOne(s[..k]);
    NormOfTail(s, k);
    assert Norm(s)[..k] == Norm(s[..k]);
    assert Norm(s) == Norm(s)[..k] + [Norm(s)[k]] + Norm(s)[k + 1..];
  }

  lemma NormOfOne(part: string)
    requires forall i :: 0 <= i < |part| ==> part[i] != '-'
    ensures Norm(part) == Capitalised(part)
  {
    if part != "" {
      assert Norm(part)[1..] == LowerAll(part[1..]);
      assert Norm(part) == [Norm(part)[0]] + Norm(part)[1..];
    }
  }

  lemma NormOfTail(s: string, k: nat)
    requires k < |s| && s[k] == '-'
    ensures Norm(s)[k + 1..] == Norm(s[k + 1..])
  {
    var tail := s[k + 1..];
    forall i | 0 <= i < |tail|
      ensures Norm(s)[k + 1 + i] == Norm(tail)[i]
    {
      assert tail[i] == s[k + 1 + i];
      assert i > 0 ==> tail[i - 1] == s[k + i];
    }
  }

  lemma {:induction false} JoinIsNorm(s: string)
    ensures Join(CapitalisedAll(Split(s, '-')), '-') == Norm(s)
    decreases |s|
  {
    var k := IndexOf(s, '-');
    if k == |s| {
      NormOfOne(s);
    } else {
      var parts, tail := Split(s, '-'), s[k + 1..];
      JoinIsNorm(tail);
      assert CapitalisedAll(parts)[1..] == CapitalisedAll(Split(tail, '-'));
      assert CapitalisedAll(parts)[0] == Capitalised(s[..k]);
      NormOfParts(s, k);
    }
  }

  method NormalizeHeaderName(name: string) returns (r: string)
    ensures r == Norm(name)
  {
    var parts := Split(name, '-');
    parts := CapitaliseParts(parts);
    JoinIsNorm(name);
    r := Join(parts, '-');
  }

  method CapitaliseParts(split: seq<string>) returns (parts: seq<string>)
    ensures parts == CapitalisedAll(split)
  {
    parts := split;
    for i := 0 to |parts|
      invariant |parts| == |split|
      invariant parts[..i] == CapitalisedAll(split)[..i] && parts[i..] == split[i..]
    {
      var part := parts[i];
      assert part == parts[i..][0] == split[i];
      if |part| > 0 {
        parts := parts[i := [Upper(part[0])] + LowerAll(part[1..])];
      }
      assert parts[i] == CapitalisedAll(split)[i];
    }
  }

  predicate SmallLetter(c: char) { 97 <= c as int <= 122 }

  predicate CapitalLetter(c: char) { 65 <= c as int <= 90 }

  /** The same character, or the same letter in the other case. */
  predicate SameLetter(c: char, d: char) {
    c == d || (SmallLetter(c) && d as int == c as int - 32) || (CapitalLetter(c) && d as int == c as int + 32)
  }

  /** A part of a name starts with no small letter and has no capital letter after that; letters stay what they are. */
  lemma NormLooks(s: string, i: nat)
    requires i < |s|
    ensures |Norm(s)| == |s| && SameLetter(s[i], Norm(s)[i])
    ensures if i == 0 || s[i - 1] == '-' then !SmallLetter(Norm(s)[i]) else !CapitalLetter(Norm(s)[i])
  {
  }

  lemma NormIsIdempotent(s: string)
    ensures Norm(Norm(s)) == Norm(s)
  {
    var n := Norm(s);
    assert forall i :: 0 <= i < |s| ==> (n[i] == '-' <==> s[i] == '-');
  }

  /** Two names normalise alike exactly when they are equal ignoring case. */
  lemma NormAlike(a: string, b: string)
    ensures Norm(a) == Norm(b) <==> LowerAll(a) == LowerAll(b)
  {
    NormKeepsLetters(a);
    NormKeepsLetters(b);
    if LowerAll(a) == LowerAll(b) {
      LowerDecidesNorm(a, b);
    }
  }

  lemma NormKeepsLetters(s: string)
    ensures LowerAll(Norm(s)) == LowerAll(s)
  {
    forall i | 0 <= i < |s|
      ensures Lower(Norm(s)[i]) == Lower(s[i])
    {
      assert Lower(Upper(s[i])) == Lower(s[i]);
    }
  }

  lemma LowerDecidesNorm(a: string, b: string)
    requires LowerAll(a) == LowerAll(b)
    ensures Norm(a) == Norm(b)
  {
    assert |a| == |LowerAll(a)| == |b|;
    forall i | 0 <= i < |a|
      ensures Norm(a)[i] == Norm(b)[i]
    {
      assert LowerAll(a)[i] == LowerAll(b)[i];
      assert i > 0 ==> LowerAll(a)[i - 1] == LowerAll(b)[i - 1];
    }
  }

  // ----- printing -----

  function MakeHeader(name: string, value: string): string {
    name + ": " + value
  }

  /** The header lines for the names in `order`. */
  function HeaderLines(order: seq<string>, headers: map<string, string>): string
    requires forall k :: k in order ==> k in headers
  {
    if order == [] then ""
    else
      var k := order[|order| - 1];
      HeaderLines(order[..|order| - 1], headers) + HeaderLine(k, headers[k])
  }

  /** The length of the body is set automatically, so a header of that name is not printed. */
  function HeaderLine(name: string, value: string): string {
    if Norm(name) == CONTENT_LENGTH then "" else MakeHeader(Norm(name), value) + "\r\n"
  }

  lemma HeaderLinesExtend(order: seq<string>, k: string, headers: map<string, string>)
    requires k in headers && forall j :: j in order ==> j in headers
    ensures HeaderLines(order + [k], headers) == HeaderLines(order, headers) + HeaderLine(k, headers[k])
  {
    assert (order + [k])[..|order|] == order;
  }

  /** The iteration visits every header. */
  ghost predicate Visits(order: seq<string>, headers: map<string, string>) {
    forall k :: k in order <==> k in headers
  }

  /** No header is visited twice. */
  ghost predicate Once(order: seq<string>) {
    forall i, j :: 0 <= i < j < |order| ==> order[i] != order[j]
  }

  function StatusLine(status: int): string {
    "HTTP/1.1 " + Itoa(status) + "\r\n"
  }

  function Tail(body: string): string {
    MakeHeader(CONTENT_LENGTH, Itoa(|body|)) + "\r\n" + "\r\n" + body
  }

  function Print(status: int, order: seq<string>, headers: map<string, string>, body: string): string
    requires forall k :: k in order ==> k in headers
  {
    StatusLine(status) + HeaderLines(order, headers) + Tail(body)
  }

  class ResponseWriter {
    var sent: string

    /** The headers are visited in whatever order the map gives. */
    method Write(status: int, headers: map<string, string>, body: string) returns (ghost order: seq<string>)
      modifies this
      ensures Visits(order, headers) && Once(order)
      ensures sent == old(sent) + Print(status, order, headers, body)
    {
      var text;
      text, order := AppendHeaders(StatusLine(status), headers);
      ghost var head, length := text, MakeHeader(CONTENT_LENGTH, Itoa(|body|));
      text := text + MakeHeader(CONTENT_LENGTH, Itoa(|body|));
      text := text + "\r\n";
      text := text + "\r\n";
      Regroup(sent, head, length, "\r\n", body);
      sent := sent + text;
      sent := sent + body;
    }

    /** The loop over the headers, in whatever order the map gives. */
    method AppendHeaders(start: string, headers: map<string, string>) returns (text: string, ghost order: seq<string>)
      ensures Visits(order, headers) && Once(order)
      ensures text == start + HeaderLines(order, headers)
    {
      text, order := start, [];
      var todo := headers.Keys;
      while todo != {}
        invariant Visiting(order, todo, headers)
        invariant text == start + HeaderLines(order, headers)
        decreases |todo|
      {
        var k :| k in todo;
        var line := HeaderText(k, headers[k]);
        VisitsNext(order, todo, k, headers);
        HeaderLinesExtend(order, k, headers);
        Joined(start, HeaderLines(order, headers), line);
        order, todo, text := order + [k], todo - {k}, text + line;
      }
    }

    /** The body of the loop. */
    method HeaderText(k: string, v: string) returns (text: string)
      ensures text == HeaderLine(k, v)
    {
      var name := NormalizeHeaderName(k);
      if name == CONTENT_LENGTH {
        return "";
      }
      text := MakeHeader(name, v);
      text := text + "\r\n";
    }
  }

  lemma Joined(a: string, b: string, c: string)
    ensures a + b + c == a + (b + c)
  {
  }

  lemma Regroup(sent: string, head: string, length: string, crlf: string, body: string)
    ensures sent + (head + length + crlf + crlf) + body == sent + (head + (length + crlf + crlf + body))
  {
  }

  /** Each header was visited once or is still to be visited. */
  ghost predicate Visiting(order: seq<string>, todo: set<string>, headers: map<string, string>) {
    (forall k :: k in headers <==> k in order || k in todo) && Once(order) && forall k :: k in todo ==> k !in order
  }

  lemma VisitsNext(order: seq<string>, todo: set<string>, k: string, headers: map<string, string>)
    requires Visiting(order, todo, headers) && k in todo
    ensures Visiting(order + [k], todo - {k}, headers)
  {
    assert forall x :: x in order + [k] <==> x in order || x == k;
    assert forall i :: 0 <= i < |order| ==> order[i] in order;
  }

  // ----- reading -----

  function ReadBody(stream: string, request: Request): Reading {
    if CONTENT_LENGTH !in request.headers then
      Served(request, stream)
    else
      var n := match Atoi(request.headers[CONTENT_LENGTH]) case None => 0 case Some(v) => v;
      if n < 0 then Panic
      else if n > |stream| then Fatal
      else Served(request.(body := Some(stream[..n])), stream[n..])
  }

  function ReadHeader(line: string, headers: map<string, string>): map<string, string> {
    var colon := IndexOf(line, ':');
    if colon == |line| then headers
    else headers[Norm(TrimSpace(line[..colon])) := TrimSpace(line[colon + 1..])]
  }

  /** The loop over the lines of the head; `first` before the first line. */
  function ReadHead(stream: string, first: bool, request: Request): Reading
    decreases |stream|
  {
    var k := IndexOf(stream, '\n');
    if k == |stream| then
      Fatal
    else
      var line, rest := stream[..k + 1], stream[k + 1..];
      if line == "\r\n" then
        ReadBody(rest, request)
      else if first then
        var splits := Split(line, ' ');
        if |splits| < 2 then Panic else ReadHead(rest, false, request.(verb := splits[0], path := splits[1]))
      else
        ReadHead(rest, false, request.(headers := ReadHeader(line, request.headers)))
  }

  const EMPTY_REQUEST: Request := Request("", "", map[], None)

  function ReadRequest(stream: string): Reading {
    ReadHead(stream, true, EMPTY_REQUEST)
  }

  method HandleConnection(stream: string) returns (r: Reading)
    ensures r == ReadRequest(stream)
  {
    var request, readLines, rest := EMPTY_REQUEST, 0, stream;
    while true
      invariant 0 <= readLines
      invariant ReadRequest(stream) == ReadHead(rest, readLines == 0, request)
      decreases |rest|
    {
      var end := IndexOf(rest, '\n');
      if end == |rest| {
        return Fatal;
      }
      var line := rest[..end + 1];
      rest := rest[end + 1..];
      if line == "\r\n" {
        if CONTENT_LENGTH in request.headers {
          var parsed := Atoi(request.headers[CONTENT_LENGTH]);
          var contentLen := if parsed.Some? then parsed.value else 0;
          if contentLen < 0 {
            return Panic;
          }
          if contentLen > |rest| {
            return Fatal;
          }
          request := request.(body := Some(rest[..contentLen]));
          rest := rest[contentLen..];
        }
        return Served(request, rest);
      }
      readLines := readLines + 1;
      if readLines == 1 {
        var splits := Split(line, ' ');
        if |splits| < 2 {
          return Panic;
        }
        request := request.(verb := splits[0], path := splits[1]);
      } else {
        var colon := IndexOf(line, ':');
        if colon == |line| {
          continue;
        }
        var name := NormalizeHeaderName(TrimSpace(line[..colon]));
        var value := TrimSpace(line[colon + 1..]);
        request := request.(headers := request.headers[name := value]);
      }
    }
  }

  // ----- what every reading gives -----

  predicate CleanName(name: string) {
    ':' !in name && '\n' !in name && Trimmed(name)
  }

  predicate CleanValue(value: string) {
    '\n' !in value && Trimmed(value)
  }

  ghost predicate CleanHeaders(headers: map<string, string>) {
    forall k :: k in headers ==> CleanName(k) && CleanValue(headers[k])
  }

  /** A character that has no other case is in a name exactly if it is in the normalised name. */
  lemma NormHas(name: string, c: char)
    requires Upper(c) == c == Lower(c)
    requires forall x :: Upper(x) == c || Lower(x) == c ==> x == c
    ensures c in Norm(name) <==> c in name
  {
    if c in Norm(name) {
      var i :| 0 <= i < |name| && NormAt(name, i) == c;
      assert name[i] == c;
    }
    if c in name {
      var i :| 0 <= i < |name| && name[i] == c;
      assert Norm(name)[i] == c;
    }
  }

  lemma NormIsClean(name: string)
    ensures CleanName(Norm(name)) <==> CleanName(name)
  {
    NormHas(name, ':');
    NormHas(name, '\n');
    if name != "" {
      assert IsSpace(NormAt(name, 0)) <==> IsSpace(name[0]);
      assert IsSpace(NormAt(name, |name| - 1)) <==> IsSpace(name[|name| - 1]);
    }
  }

  /** Names and values that were read are clean, whatever was sent. */
  lemma {:induction false} ReadingIsClean(stream: string, first: bool, request: Request)
    requires CleanHeaders(request.headers)
    ensures var r := ReadHead(stream, first, request); r.Served? ==> CleanHeaders(r.request.headers)
    decreases |stream|
  {
    var k := IndexOf(stream, '\n');
    if k < |stream| {
      var line, rest := stream[..k + 1], stream[k + 1..];
      if line == "\r\n" {
      } else if first {
        var splits := Split(line, ' ');
        if |splits| >= 2 {
          ReadingIsClean(rest, false, request.(verb := splits[0], path := splits[1]));
        }
      } else {
        FirstLineIsClean(stream, k, request.headers);
        ReadingIsClean(rest, false, request.(headers := ReadHeader(line, request.headers)));
      }
    }
  }

  lemma FirstLineIsClean(stream: string, k: nat, headers: map<string, string>)
    requires CleanHeaders(headers)
    requires k < |stream| && stream[k] == '\n' && forall i :: 0 <= i < k ==> stream[i] != '\n'
    ensures CleanHeaders(ReadHeader(stream[..k + 1], headers))
  {
    assert stream[..k + 1][..k] == stream[..k];
    HeaderIsClean(stream[..k + 1], headers);
  }

  lemma HeaderIsClean(line: string, headers: map<string, string>)
    requires CleanHeaders(headers)
    requires line != "" && '\n' !in line[..|line| - 1] && line[|line| - 1] == '\n'
    ensures CleanHeaders(ReadHeader(line, headers))
  {
    var colon := IndexOf(line, ':');
    if colon < |line| {
      var name, value := TrimSpace(line[..colon]), TrimSpace(line[colon + 1..]);
      assert forall i :: 0 <= i < |line| - 1 ==> line[..|line| - 1][i] == line[i];
      NormIsClean(name);
      TrimDropsLast(line[colon + 1..]);
    }
  }

  lemma {:induction false} TrimDropsLast(s: string)
    requires s != "" && s[|s| - 1] == '\n' && forall i :: 0 <= i < |s| - 1 ==> s[i] != '\n'
    ensures '\n' !in TrimSpace(s)
    decreases |s|
  {
    if IsSpace(s[0]) {
      if |s| > 1 {
        TrimDropsLast(s[1..]);
      }
    }
  }

  // ----- the round trip -----

  lemma IndexAfter(before: string, c: char, after: string)
    requires c !in before
    ensures IndexOf(before + [c] + after, c) == |before|
  {
    var s := before + [c] + after;
    assert forall i :: 0 <= i < |before| ==> s[i] == before[i];
    IndexOfFirst(s, c, |before|);
  }

  /** Reading one printed line. */
  lemma ReadsHeader(name: string, value: string, rest: string, request: Request)
    requires CleanName(name) && CleanValue(value)
    ensures ReadHead(MakeHeader(name, value) + "\r\n" + rest, false, request)
         == ReadHead(rest, false, request.(headers := request.headers[Norm(name) := value]))
  {
    assert MakeHeader(name, value) + "\r" + "\n" + rest == MakeHeader(name, value) + "\r\n" + rest;
    ReadsLine(name, value, "\r", rest, request);
  }

  /** The reader takes a line feed for the end of a line, with or without a carriage return before it. */
  lemma ReadsLine(name: string, value: string, cr: string, rest: string, request: Request)
    requires CleanName(name) && CleanValue(value) && (cr == "" || cr == "\r")
    ensures ReadHead(MakeHeader(name, value) + cr + "\n" + rest, false, request)
         == ReadHead(rest, false, request.(headers := request.headers[Norm(name) := value]))
  {
    var before := MakeHeader(name, value) + cr;
    var stream := MakeHeader(name, value) + cr + "\n" + rest;
    assert stream == before + ['\n'] + rest;
    IndexAfter(before, '\n', rest);
    var line := before + "\n";
    assert stream[..|before| + 1] == line && stream[|before| + 1..] == rest;
    assert ':' in line && line != "\r\n" by {
      assert line[|name|] == ':';
      assert |line| > 2;
    }
    LineGives(name, value, cr, request.headers);
  }

  lemma ColonAfter(name: string, value: string, cr: string)
    ensures MakeHeader(name, value) + cr + "\n" == name + [':'] + (" " + value + (cr + "\n"))
  {
  }

  lemma LineGives(name: string, value: string, cr: string, headers: map<string, string>)
    requires CleanName(name) && CleanValue(value) && (cr == "" || cr == "\r")
    ensures ReadHeader(MakeHeader(name, value) + cr + "\n", headers) == headers[Norm(name) := value]
  {
    var line, end := MakeHeader(name, value) + cr + "\n", " " + value + (cr + "\n");
    ColonAfter(name, value, cr);
    IndexAfter(name, ':', end);
    assert line[..|name|] == name && line[|name| + 1..] == end;
    TrimsExactly("", name, "");
    assert "" + name + "" == name;
    TrimsExactly(" ", value, cr + "\n");
  }

  /** What the printed lines give when read in order: a later line replaces an earlier one of the same name. */
  function Gather(order: seq<string>, headers: map<string, string>): map<string, string>
    requires forall k :: k in order ==> k in headers
  {
    if order == [] then map[]
    else
      var k, before := order[|order| - 1], Gather(order[..|order| - 1], headers);
      if Norm(k) == CONTENT_LENGTH then before else before[Norm(k) := headers[k]]
  }

  /** Every header that is printed can be read: its name and value are clean. */
  ghost predicate Legible(headers: map<string, string>) {
    forall k :: k in headers && Norm(k) != CONTENT_LENGTH ==> CleanName(k) && CleanValue(headers[k])
  }

  /** Printed headers whose names differ only in case have the same value. */
  ghost predicate Agreeing(headers: map<string, string>) {
    forall j, k :: j in headers && k in headers && Norm(j) == Norm(k) != CONTENT_LENGTH ==> headers[j] == headers[k]
  }

  lemma {:induction false} ReadsLines(order: seq<string>, headers: map<string, string>, rest: string, request: Request)
    requires forall k :: k in order ==> k in headers
    requires Legible(headers) && request.headers == map[]
    ensures ReadHead(HeaderLines(order, headers) + rest, false, request)
         == ReadHead(rest, false, request.(headers := Gather(order, headers)))
    decreases |order|
  {
    if order == [] {
      assert HeaderLines(order, headers) + rest == rest;
    } else {
      var k, before := order[|order| - 1], order[..|order| - 1];
      var line := HeaderLine(k, headers[k]);
      assert HeaderLines(order, headers) + rest == HeaderLines(before, headers) + (line + rest);
      ReadsLines(before, headers, line + rest, request);
      if Norm(k) == CONTENT_LENGTH {
        assert line + rest == rest;
      } else {
        NormIsClean(k);
        NormIsIdempotent(k);
        ReadsHeader(Norm(k), headers[k], rest, request.(headers := Gather(before, headers)));
      }
    }
  }

  lemma ReadsTail(body: string, rest: string, request: Request)
    requires |body| < TWO_63
    ensures ReadHead(Tail(body) + rest, false, request)
         == Served(request.(headers := request.headers[CONTENT_LENGTH := Itoa(|body|)], body := Some(body)), rest)
  {
    var length := Itoa(|body|);
    assert CleanValue(length) by {
      assert length[0] in length && length[|length| - 1] in length;
    }
    assert Norm(CONTENT_LENGTH) == CONTENT_LENGTH;
    assert Tail(body) + rest == MakeHeader(CONTENT_LENGTH, length) + "\r\n" + ("\r\n" + body + rest);
    ReadsHeader(CONTENT_LENGTH, length, "\r\n" + body + rest, request);
    ReadsEnd(body, rest, request.(headers := request.headers[CONTENT_LENGTH := length]));
  }

  lemma ReadsEnd(body: string, rest: string, request: Request)
    requires |body| < TWO_63
    requires CONTENT_LENGTH in request.headers && request.headers[CONTENT_LENGTH] == Itoa(|body|)
    ensures ReadHead("\r\n" + body + rest, false, request) == Served(request.(body := Some(body)), rest)
  {
    var stream := "\r\n" + body + rest;
    assert stream == "\r" + ['\n'] + (body + rest);
    IndexAfter("\r", '\n', body + rest);
    assert stream[..2] == "\r\n" && stream[2..] == body + rest;
    AtoiOfItoa(|body|);
    assert (body + rest)[..|body|] == body && (body + rest)[|body|..] == rest;
  }

  lemma ReadsStatus(status: int, rest: string)
    ensures ReadRequest(StatusLine(status) + rest)
         == ReadHead(rest, false, EMPTY_REQUEST.(verb := "HTTP/1.1", path := Itoa(status) + "\r\n"))
  {
    var code := Itoa(status);
    var before := "HTTP/1.1 " + code + "\r";
    var stream := StatusLine(status) + rest;
    assert stream == before + ['\n'] + rest;
    IndexAfter(before, '\n', rest);
    var line := before + "\n";
    assert stream[..|before| + 1] == line && stream[|before| + 1..] == rest;
    StatusSplits(status);
  }

  lemma StatusSplits(status: int)
    ensures Split("HTTP/1.1 " + Itoa(status) + "\r" + "\n", ' ') == ["HTTP/1.1", Itoa(status) + "\r\n"]
  {
    var line, end := "HTTP/1.1 " + Itoa(status) + "\r" + "\n", Itoa(status) + "\r\n";
    assert line == "HTTP/1.1" + [' '] + end;
    IndexAfter("HTTP/1.1", ' ', end);
    assert line[..8] == "HTTP/1.1" && line[9..] == end;
    assert ' ' !in end;
    assert Split(end, ' ') == [end];
  }

  function ReadBack(status: int, headers: map<string, string>, body: string): Request {
    Request("HTTP/1.1", Itoa(status) + "\r\n", headers[CONTENT_LENGTH := Itoa(|body|)], Some(body))
  }

  lemma Associates(a: string, b: string, c: string, d: string)
    ensures a + b + c + d == a + (b + (c + d))
  {
  }

  /** Reading what was printed. */
  lemma ReadsPrinted(status: int, order: seq<string>, headers: map<string, string>, body: string, rest: string)
    requires forall k :: k in order ==> k in headers
    requires Legible(headers) && |body| < TWO_63
    ensures ReadRequest(Print(status, order, headers, body) + rest)
         == Served(ReadBack(status, Gather(order, headers), body), rest)
  {
    var lines := HeaderLines(order, headers);
    Associates(StatusLine(status), lines, Tail(body), rest);
    ReadsStatus(status, lines + (Tail(body) + rest));
    var request := EMPTY_REQUEST.(verb := "HTTP/1.1", path := Itoa(status) + "\r\n");
    ReadsLines(order, headers, Tail(body) + rest, request);
    ReadsTail(body, rest, request.(headers := Gather(order, headers)));
  }

  /** `got` holds every printed header under its normalised name, the length of the body, and nothing else. */
  ghost predicate Faithful(headers: map<string, string>, body: string, got: map<string, string>) {
    && (forall k :: k in headers && Norm(k) != CONTENT_LENGTH ==> Norm(k) in got && got[Norm(k)] == headers[k])
    && (forall n :: n in got && n != CONTENT_LENGTH ==> exists k :: k in headers && n == Norm(k))
    && CONTENT_LENGTH in got && got[CONTENT_LENGTH] == Itoa(|body|)
  }

  ghost predicate RoundTrips(status: int, order: seq<string>, headers: map<string, string>, body: string, rest: string)
    requires forall k :: k in order ==> k in headers
  {
    var r := ReadRequest(Print(status, order, headers, body) + rest);
    && r.Served? && r.rest == rest
    && r.request.verb == "HTTP/1.1" && r.request.path == Itoa(status) + "\r\n"
    && r.request.body == Some(body)
    && Faithful(headers, body, r.request.headers)
  }

  lemma {:induction false} GathersAll(order: seq<string>, headers: map<string, string>, k: string)
    requires forall k :: k in order ==> k in headers
    requires Agreeing(headers) && k in order && Norm(k) != CONTENT_LENGTH
    ensures var got := Gather(order, headers); Norm(k) in got && got[Norm(k)] == headers[k]
    decreases |order|
  {
    var last, before := order[|order| - 1], order[..|order| - 1];
    if k != last {
      assert k in before;
      GathersAll(before, headers, k);
    }
  }

  lemma {:induction false} GathersOnly(order: seq<string>, headers: map<string, string>, n: string)
    requires forall k :: k in order ==> k in headers
    requires n in Gather(order, headers)
    ensures exists k :: k in headers && n == Norm(k)
    decreases |order|
  {
    var last, before := order[|order| - 1], order[..|order| - 1];
    if n != Norm(last) {
      GathersOnly(before, headers, n);
    } else {
      assert last in headers;
    }
  }

  /**
    For every order of the headers and whatever follows on the connection, reading back what `Write` prints
    gives the normalised headers, the one correct Content-Length and the body, exactly when names and values
    are clean and names that differ only in case do not disagree.
   */
  lemma RoundTripExactly(status: int, order: seq<string>, headers: map<string, string>, body: string, rest: string)
    requires Visits(order, headers) && |body| < TWO_63
    ensures RoundTrips(status, order, headers, body, rest) <==> Legible(headers) && Agreeing(headers)
  {
    if Legible(headers) && Agreeing(headers) {
      ReadsPrinted(status, order, headers, body, rest);
      GathersFaithfully(order, headers, body);
    }
    if RoundTrips(status, order, headers, body, rest) {
      ReadingIsClean(Print(status, order, headers, body) + rest, true, EMPTY_REQUEST);
      FaithfulIsLegible(headers, body, ReadRequest(Print(status, order, headers, body) + rest).request.headers);
    }
  }

  lemma GathersFaithfully(order: seq<string>, headers: map<string, string>, body: string)
    requires Visits(order, headers) && Agreeing(headers)
    ensures Faithful(headers, body, Gather(order, headers)[CONTENT_LENGTH := Itoa(|body|)])
  {
    var got := Gather(order, headers);
    forall k | k in headers && Norm(k) != CONTENT_LENGTH
      ensures Norm(k) in got && got[Norm(k)] == headers[k]
    {
      GathersAll(order, headers, k);
    }
    forall n | n in got
      ensures exists k :: k in headers && n == Norm(k)
    {
      GathersOnly(order, headers, n);
    }
  }

  lemma FaithfulIsLegible(headers: map<string, string>, body: string, got: map<string, string>)
    requires Faithful(headers, body, got) && CleanHeaders(got)
    ensures Legible(headers) && Agreeing(headers)
  {
    forall k | k in headers && Norm(k) != CONTENT_LENGTH
      ensures CleanName(k) && CleanValue(headers[k])
    {
      NormIsClean(k);
    }
  }

  /** When names that differ only in case agree, nothing depends on the order in which the map is visited. */
  lemma OrderDoesNotMatter(status: int, o: seq<string>, o': seq<string>, headers: map<string, string>, body: string,
                           rest: string)
    requires Visits(o, headers) && Visits(o', headers)
    requires Legible(headers) && Agreeing(headers) && |body| < TWO_63
    ensures ReadRequest(Print(status, o, headers, body) + rest) == ReadRequest(Print(status, o', headers, body) + rest)
  {
    RoundTripExactly(status, o, headers, body, rest);
    RoundTripExactly(status, o', headers, body, rest);
    FaithfulIsUnique(headers, body, ReadRequest(Print(status, o, headers, body) + rest).request.headers,
                     ReadRequest(Print(status, o', headers, body) + rest).request.headers);
  }

  lemma FaithfulIsUnique(headers: map<string, string>, body: string, got: map<string, string>, got': map<string,
                         string>)
    requires Faithful(headers, body, got) && Faithful(headers, body, got')
    ensures got == got'
  {
    FaithfulIncludes(headers, body, got, got');
    FaithfulIncludes(headers, body, got', got);
  }

  lemma FaithfulIncludes(headers: map<string, string>, body: string, got: map<string, string>, got': map<string,
                         string>)
    requires Faithful(headers, body, got) && Faithful(headers, body, got')
    ensures forall n :: n in got ==> n in got' && got'[n] == got[n]
  {
    forall n | n in got && n != CONTENT_LENGTH
      ensures n in got' && got'[n] == got[n]
    {
      var k :| k in headers && n == Norm(k);
    }
  }

  /** A value with a line feed in it is read as two headers, whatever the clean texts on both sides of it. */
  lemma LineFeedSplits(status: int, name: string, value: string, other: string, more: string, body: string,
                       rest: string)
    requires CleanName(name) && CleanValue(value) && CleanName(other) && CleanValue(more) && |body| < TWO_63
    requires Norm(name) != CONTENT_LENGTH
    ensures ReadRequest(Print(status, [name], map[name := value + "\n" + MakeHeader(other, more)], body) + rest)
         == Served(ReadBack(status, map[Norm(name) := value][Norm(other) := more], body), rest)
  {
    var headers := map[name := value + "\n" + MakeHeader(other, more)];
    var lines := HeaderLines([name], headers);
    HeaderLinesExtend([], name, headers);
    assert [] + [name] == [name];
    assert lines == "" + (MakeHeader(Norm(name), headers[name]) + "\r\n");
    Associates(StatusLine(status), lines, Tail(body), rest);
    ReadsStatus(status, lines + (Tail(body) + rest));
    var request := EMPTY_REQUEST.(verb := "HTTP/1.1", path := Itoa(status) + "\r\n");
    TwoHeaders(name, value, other, more, Tail(body) + rest, request);
    ReadsTail(body, rest, request.(headers := map[Norm(name) := value][Norm(other) := more]));
  }

  lemma TwoHeaders(name: string, value: string, other: string, more: string, rest: string, request: Request)
    requires CleanName(name) && CleanValue(value) && CleanName(other) && CleanValue(more) && request.headers == map[]
    ensures ReadHead("" + (MakeHeader(Norm(name), value + "\n" + MakeHeader(other, more)) + "\r\n") + rest,
                     false, request)
         == ReadHead(rest, false, request.(headers := map[Norm(name) := value][Norm(other) := more]))
  {
    var first, second := MakeHeader(Norm(name), value), MakeHeader(other, more) + "\r\n" + rest;
    assert "" + (MakeHeader(Norm(name), value + "\n" + MakeHeader(other, more)) + "\r\n") + rest
      == first + "" + "\n" + second;
    NormIsClean(name);
    NormIsIdempotent(name);
    ReadsLine(Norm(name), value, "", second, request);
    ReadsHeader(other, more, rest, request.(headers := map[Norm(name) := value]));
  }
}
