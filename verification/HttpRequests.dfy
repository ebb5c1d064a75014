/** What the server reads of a request, said of the text sent and the request handed to the handler. */
module HttpRequests {
  import opened Values
  import opened HttpText
  import opened HttpHeaders

  /** A header line as a client writes it: name and value. */
  datatype Header = Header(name: string, value: string)

  predicate CleanLine(h: Header) { CleanName(h.name) && CleanValue(h.value) }

  function LineOf(h: Header): string {
    h.name + ": " + h.value + "\r\n"
  }

  function LinesOf(hs: seq<Header>): string {
    if hs == [] then "" else LinesOf(hs[..|hs| - 1]) + LineOf(hs[|hs| - 1])
  }

  /** The first line of a request; `version` is whatever follows the path. */
  function RequestLine(verb: string, path: string, version: string): string {
    verb + " " + path + " " + version + "\r\n"
  }

  /** No later header has the name of header `i`, whatever its case. */
  ghost predicate LastOfItsName(hs: seq<Header>, i: nat)
    requires i < |hs|
  {
    forall j :: i < j < |hs| ==> Norm(hs[j].name) != Norm(hs[i].name)
  }

  /** `got` has the normalised names of the headers, each with the value of its last header. */
  ghost predicate LastWins(hs: seq<Header>, got: map<string, string>) {
    && (forall n :: n in got <==> exists i :: 0 <= i < |hs| && Norm(hs[i].name) == n)
    && (forall i :: 0 <= i < |hs| && LastOfItsName(hs, i) ==>
          Norm(hs[i].name) in got && got[Norm(hs[i].name)] == hs[i].value)
  }

  function Collected(hs: seq<Header>): map<string, string> {
    if hs == [] then map[]
    else Collected(hs[..|hs| - 1])[Norm(hs[|hs| - 1].name) := hs[|hs| - 1].value]
  }

  lemma {:induction false} CollectedNames(hs: seq<Header>, n: string)
    ensures n in Collected(hs) <==> exists i :: 0 <= i < |hs| && Norm(hs[i].name) == n
    decreases |hs|
  {
    if hs != [] {
      var before := hs[..|hs| - 1];
      CollectedNames(before, n);
      assert forall i :: 0 <= i < |before| ==> before[i] == hs[i];
      if i :| 0 <= i < |hs| && Norm(hs[i].name) == n {
        assert i < |before| ==> Norm(before[i].name) == n;
      }
    }
  }

  lemma {:induction false} CollectedValues(hs: seq<Header>, i: nat)
    requires i < |hs| && LastOfItsName(hs, i)
    ensures Norm(hs[i].name) in Collected(hs) && Collected(hs)[Norm(hs[i].name)] == hs[i].value
    decreases |hs|
  {
    var before := hs[..|hs| - 1];
    if i < |before| {
      assert forall j :: 0 <= j < |before| ==> before[j] == hs[j];
      assert LastOfItsName(before, i);
      CollectedValues(before, i);
    }
  }

  lemma CollectedLastWins(hs: seq<Header>)
    ensures LastWins(hs, Collected(hs))
  {
    forall n
      ensures n in Collected(hs) <==> exists i :: 0 <= i < |hs| && Norm(hs[i].name) == n
    {
      CollectedNames(hs, n);
    }
    forall i | 0 <= i < |hs| && LastOfItsName(hs, i)
      ensures Norm(hs[i].name) in Collected(hs) && Collected(hs)[Norm(hs[i].name)] == hs[i].value
    {
      CollectedValues(hs, i);
    }
  }

  // ----- reading the head -----

  lemma {:induction false} ReadsLinesOf(hs: seq<Header>, rest: string, request: Request)
    requires (forall i :: 0 <= i < |hs| ==> CleanLine(hs[i])) && request.headers == map[]
    ensures ReadHead(LinesOf(hs) + rest, false, request) == ReadHead(rest, false, request.(headers := Collected(hs)))
    decreases |hs|
  {
    if hs == [] {
      assert LinesOf(hs) + rest == rest;
    } else {
      var before, h := hs[..|hs| - 1], hs[|hs| - 1];
      Joined(LinesOf(before), LineOf(h), rest);
      ReadsLinesOf(before, LineOf(h) + rest, request);
      ReadsHeader(h.name, h.value, rest, request.(headers := Collected(before)));
    }
  }

  predicate Word(s: string) { ' ' !in s && '\n' !in s }

  lemma RequestLineSplits(verb: string, path: string, version: string)
    requires Word(verb) && Word(path)
    ensures var splits := Split(RequestLine(verb, path, version), ' ');
      |splits| >= 2 && splits[0] == verb && splits[1] == path
  {
    var after := path + [' '] + (version + "\r\n");
    WordThen(verb, after);
    SpacesApart(verb, path, version, "\r\n");
    WordThen(path, version + "\r\n");
  }

  lemma SpacesApart(a: string, b: string, c: string, d: string)
    ensures a + " " + b + " " + c + d == a + [' '] + (b + [' '] + (c + d))
  {
  }

  lemma WordThen(word: string, after: string)
    requires Word(word)
    ensures Split(word + [' '] + after, ' ') == [word] + Split(after, ' ')
  {
    var s := word + [' '] + after;
    IndexAfter(word, ' ', after);
    assert s[..|word|] == word && s[|word| + 1..] == after;
  }

  lemma ReadsRequestLine(verb: string, path: string, version: string, rest: string)
    requires Word(verb) && Word(path) && '\n' !in version
    ensures ReadRequest(RequestLine(verb, path, version) + rest)
      == ReadHead(rest, false, EMPTY_REQUEST.(verb := verb, path := path))
  {
    var line := RequestLine(verb, path, version);
    var before := verb + " " + path + " " + version + "\r";
    assert line == before + "\n";
    assert '\n' !in before;
    assert line + rest == before + ['\n'] + rest;
    IndexAfter(before, '\n', rest);
    assert (line + rest)[..|before| + 1] == line && (line + rest)[|before| + 1..] == rest;
    assert line[|verb|] == ' ' && line != "\r\n" by {
      assert ' ' in line && ' ' !in "\r\n";
    }
    RequestLineSplits(verb, path, version);
  }

  /** Everything up to the blank line. */
  lemma ReadsWholeHead(verb: string, path: string, version: string, hs: seq<Header>, rest: string)
    requires Word(verb) && Word(path) && '\n' !in version && forall i :: 0 <= i < |hs| ==> CleanLine(hs[i])
    ensures ReadRequest(RequestLine(verb, path, version) + LinesOf(hs) + "\r\n" + rest)
      == ReadBody(rest, EMPTY_REQUEST.(verb := verb, path := path, headers := Collected(hs)))
  {
    var request := EMPTY_REQUEST.(verb := verb, path := path);
    Associates(RequestLine(verb, path, version), LinesOf(hs), "\r\n", rest);
    ReadsRequestLine(verb, path, version, LinesOf(hs) + ("\r\n" + rest));
    ReadsLinesOf(hs, "\r\n" + rest, request);
    ReadsBlank(rest, request.(headers := Collected(hs)));
  }

  lemma ReadsBlank(rest: string, request: Request)
    ensures ReadHead("\r\n" + rest, false, request) == ReadBody(rest, request)
  {
    assert "\r\n" + rest == "\r" + ['\n'] + rest;
    IndexAfter("\r", '\n', rest);
    assert ("\r\n" + rest)[..2] == "\r\n" && ("\r\n" + rest)[2..] == rest;
  }

  // ----- whole requests -----

  /** The request handed over: its verb and path as sent, its headers, this body, and `left` still to be read. */
  ghost predicate Handed(r: Reading, verb: string, path: string, hs: seq<Header>, body: Option<string>, left: string) {
    r.Served? && r.request.verb == verb && r.request.path == path && LastWins(hs, r.request.headers)
    && r.request.body == body && r.rest == left
  }

  /** The last Content-Length header, in whatever case, has the value `t`. */
  ghost predicate Announces(hs: seq<Header>, t: string) {
    exists i :: 0 <= i < |hs| && LastOfItsName(hs, i) && Norm(hs[i].name) == CONTENT_LENGTH && hs[i].value == t
  }

  /** Without a Content-Length there is no body, and nothing after the blank line is touched. */
  lemma RequestWithoutBody(verb: string, path: string, version: string, hs: seq<Header>, rest: string)
    requires Word(verb) && Word(path) && '\n' !in version && forall i :: 0 <= i < |hs| ==> CleanLine(hs[i])
    requires forall i :: 0 <= i < |hs| ==> Norm(hs[i].name) != CONTENT_LENGTH
    ensures Handed(ReadRequest(verb + " " + path + " " + version + "\r\n" + LinesOf(hs) + "\r\n" + rest),
                   verb, path, hs, None, rest)
  {
    ReadsWholeHead(verb, path, version, hs, rest);
    CollectedNames(hs, CONTENT_LENGTH);
    IsHanded(verb, path, hs, None, rest);
  }

  lemma IsHanded(verb: string, path: string, hs: seq<Header>, body: Option<string>, left: string)
    ensures Handed(Served(Request(verb, path, Collected(hs), body), left), verb, path, hs, body, left)
  {
    CollectedLastWins(hs);
  }

  /** The number a Content-Length stands for; what is not a number counts as 0. */
  function Announced(t: string): int {
    match Atoi(t) case Some(n) => n case None => 0
  }

  /** With one, the body is exactly that many bytes; a negative length panics, and too few bytes are fatal. */
  lemma RequestWithBody(verb: string, path: string, version: string, hs: seq<Header>, t: string, rest: string)
    requires Word(verb) && Word(path) && '\n' !in version && forall i :: 0 <= i < |hs| ==> CleanLine(hs[i])
    requires Announces(hs, t)
    ensures var r := ReadRequest(verb + " " + path + " " + version + "\r\n" + LinesOf(hs) + "\r\n" + rest);
      var n := Announced(t);
      && (r == Panic <==> n < 0)
      && (r == Fatal <==> n > |rest|)
      && (0 <= n <= |rest| ==> Handed(r, verb, path, hs, Some(rest[..n]), rest[n..]))
  {
    ReadsWholeHead(verb, path, version, hs, rest);
    var i :| 0 <= i < |hs| && LastOfItsName(hs, i) && Norm(hs[i].name) == CONTENT_LENGTH && hs[i].value == t;
    CollectedValues(hs, i);
    BodyIsRead(verb, path, hs, t, rest);
  }

  lemma BodyIsRead(verb: string, path: string, hs: seq<Header>, t: string, rest: string)
    requires CONTENT_LENGTH in Collected(hs) && Collected(hs)[CONTENT_LENGTH] == t
    ensures var r := ReadBody(rest, EMPTY_REQUEST.(verb := verb, path := path, headers := Collected(hs)));
      var n := Announced(t);
      && (r == Panic <==> n < 0)
      && (r == Fatal <==> n > |rest|)
      && (0 <= n <= |rest| ==> Handed(r, verb, path, hs, Some(rest[..n]), rest[n..]))
  {
    var n := Announced(t);
    if 0 <= n <= |rest| {
      IsHanded(verb, path, hs, Some(rest[..n]), rest[n..]);
    }
  }

  /** A body announced by its length is handed over, and what follows is left. */
  lemma BodyArrives(verb: string, path: string, version: string, hs: seq<Header>, body: string, more: string)
    requires Word(verb) && Word(path) && '\n' !in version && forall i :: 0 <= i < |hs| ==> CleanLine(hs[i])
    requires |body| < TWO_63 && Announces(hs, Itoa(|body|))
    ensures Handed(ReadRequest(verb + " " + path + " " + version + "\r\n" + LinesOf(hs) + "\r\n" + (body + more)),
                   verb, path, hs, Some(body), more)
  {
    AtoiOfItoa(|body|);
    RequestWithBody(verb, path, version, hs, Itoa(|body|), body + more);
    assert (body + more)[..|body|] == body && (body + more)[|body|..] == more;
  }

  // ----- other heads -----

  /** A first line without a space panics, unless it is blank. */
  lemma OneWordPanics(line: string, rest: string)
    requires Word(line) && line != "\r"
    ensures ReadRequest(line + "\n" + rest) == Panic
  {
    var stream := line + "\n" + rest;
    assert stream == line + ['\n'] + rest;
    IndexAfter(line, '\n', rest);
    var first := line + "\n";
    assert stream[..|line| + 1] == first;
    assert first != "\r\n" by {
      assert first[..|first| - 1] == line && "\r\n"[..1] == "\r";
    }
    assert ' ' !in first;
    assert IndexOf(first, ' ') == |first|;
  }

  /** A later line without a colon is skipped, unless it is blank. */
  lemma ColonlessIsSkipped(line: string, rest: string, request: Request)
    requires ':' !in line && '\n' !in line && line != "\r"
    ensures ReadHead(line + "\n" + rest, false, request) == ReadHead(rest, false, request)
  {
    var stream := line + "\n" + rest;
    assert stream == line + ['\n'] + rest;
    IndexAfter(line, '\n', rest);
    var first := line + "\n";
    assert stream[..|line| + 1] == first && stream[|line| + 1..] == rest;
    assert first != "\r\n" by {
      assert first[..|first| - 1] == line && "\r\n"[..1] == "\r";
    }
    assert ':' !in first;
    assert IndexOf(first, ':') == |first|;
  }

  /** A head that ends before its blank line is fatal. */
  lemma UnfinishedIsFatal(stream: string)
    requires '\n' !in stream
    ensures ReadRequest(stream) == Fatal
  {
    assert IndexOf(stream, '\n') == |stream|;
  }
}
