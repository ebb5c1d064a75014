/** What the server prints, said of the lines of the text itself. */
module HttpPrinted {
  import opened Values
  import opened HttpText
  import opened HttpHeaders

  /** The lines of a text, each with the line feed that ends it. */
  function LinesIn(s: string): seq<string>
    decreases |s|
  {
    var k := IndexOf(s, '\n');
    if k == |s| then [] else [s[..k + 1]] + LinesIn(s[k + 1..])
  }

  /** The line is a header whose normalised name is `n`. */
  predicate Named(line: string, n: string) {
    var colon := IndexOf(line, ':');
    colon < |line| && Norm(TrimSpace(line[..colon])) == n
  }

  function CountNamed(lines: seq<string>, n: string): nat {
    if lines == [] then 0 else CountNamed(lines[..|lines| - 1], n) + if Named(lines[|lines| - 1], n) then 1 else 0
  }

  lemma {:induction false} CountConcat(first: seq<string>, second: seq<string>, n: string)
    ensures CountNamed(first + second, n) == CountNamed(first, n) + CountNamed(second, n)
    decreases |second|
  {
    if second == [] {
      assert first + second == first;
    } else {
      assert (first + second)[..|first + second| - 1] == first + second[..|second| - 1];
      CountConcat(first, second[..|second| - 1], n);
    }
  }

  /** A text that ends with a line feed, if it is not empty. */
  predicate Complete(s: string) { s == "" || s[|s| - 1] == '\n' }

  lemma {:induction false} LinesConcat(a: string, b: string)
    requires Complete(a)
    ensures LinesIn(a + b) == LinesIn(a) + LinesIn(b)
    decreases |a|
  {
    if a == "" {
      assert a + b == b;
    } else {
      var k := IndexOf(a, '\n');
      assert a[|a| - 1] == '\n';
      FirstLineOf(a, b, k);
      LinesConcat(a[k + 1..], b);
      Prepends(a[..k + 1], LinesIn(a[k + 1..]), LinesIn(b));
    }
  }

  lemma FirstLineOf(a: string, b: string, k: nat)
    requires k < |a| && a[k] == '\n' && forall i :: 0 <= i < k ==> a[i] != '\n'
    ensures IndexOf(a + b, '\n') == k && (a + b)[..k + 1] == a[..k + 1] && (a + b)[k + 1..] == a[k + 1..] + b
  {
    assert forall i :: 0 <= i < |a| ==> (a + b)[i] == a[i];
    IndexOfFirst(a + b, '\n', k);
  }

  lemma Prepends(line: string, first: seq<string>, second: seq<string>)
    ensures [line] + (first + second) == [line] + first + second
  {
  }

  lemma OneLine(before: string)
    requires '\n' !in before
    ensures LinesIn(before + "\n") == [before + "\n"]
  {
    assert before + "\n" == before + ['\n'] + "";
    IndexAfter(before, '\n', "");
    assert (before + "\n")[..|before| + 1] == before + "\n";
  }

  // ----- the lines that are printed -----

  /** A header line for a clean name and value is one line, and has that name. */
  lemma HeaderIsOneLine(name: string, value: string)
    requires CleanName(name) && CleanValue(value)
    ensures LinesIn(MakeHeader(name, value) + "\r\n") == [MakeHeader(name, value) + "\r\n"]
    ensures forall n :: Named(MakeHeader(name, value) + "\r\n", n) <==> n == Norm(name)
  {
    var before := MakeHeader(name, value) + "\r";
    assert MakeHeader(name, value) + "\r\n" == before + "\n";
    OneLine(before);
    ColonAfter(name, value, "\r");
    assert MakeHeader(name, value) + "\r" + "\n" == MakeHeader(name, value) + "\r\n";
    var end := " " + value + ("\r" + "\n");
    IndexAfter(name, ':', end);
    assert (name + [':'] + end)[..|name|] == name;
    TrimsExactly("", name, "");
    assert "" + name + "" == name;
  }

  /** How many of the visited headers are printed under this name. */
  function NamedAs(order: seq<string>, n: string): nat {
    if order == [] then 0
    else
      var k := order[|order| - 1];
      NamedAs(order[..|order| - 1], n) + if Norm(k) == n && n != CONTENT_LENGTH then 1 else 0
  }

  /** How many of the visited headers are printed. */
  function Printed(order: seq<string>): nat {
    if order == [] then 0
    else Printed(order[..|order| - 1]) + if Norm(order[|order| - 1]) != CONTENT_LENGTH then 1 else 0
  }

  lemma {:induction false} HeaderLinesAre(order: seq<string>, headers: map<string, string>, n: string)
    requires forall k :: k in order ==> k in headers
    requires Legible(headers)
    ensures var text := HeaderLines(order, headers);
      && Complete(text) && |LinesIn(text)| == Printed(order) && CountNamed(LinesIn(text), n) == NamedAs(order, n)
    decreases |order|
  {
    if order != [] {
      var k, before := order[|order| - 1], order[..|order| - 1];
      HeaderLinesAre(before, headers, n);
      LinesConcat(HeaderLines(before, headers), HeaderLine(k, headers[k]));
      HeaderLineIs(k, headers[k], n);
      CountConcat(LinesIn(HeaderLines(before, headers)), LinesIn(HeaderLine(k, headers[k])), n);
      EndsComplete(HeaderLines(before, headers), HeaderLine(k, headers[k]));
    }
  }

  lemma EndsComplete(a: string, b: string)
    requires Complete(a) && Complete(b)
    ensures Complete(a + b)
  {
    if b == "" {
      assert a + b == a;
    }
  }

  lemma HeaderLineIs(k: string, value: string, n: string)
    requires Norm(k) != CONTENT_LENGTH ==> CleanName(k) && CleanValue(value)
    ensures var lines := LinesIn(HeaderLine(k, value));
      && Complete(HeaderLine(k, value))
      && |lines| == (if Norm(k) != CONTENT_LENGTH then 1 else 0)
      && CountNamed(lines, n) == (if Norm(k) == n && n != CONTENT_LENGTH then 1 else 0)
      && (Norm(k) != CONTENT_LENGTH ==> lines == [MakeHeader(Norm(k), value) + "\r\n"])
  {
    if Norm(k) != CONTENT_LENGTH {
      NormIsClean(k);
      NormIsIdempotent(k);
      HeaderIsOneLine(Norm(k), value);
      CountOne(MakeHeader(Norm(k), value) + "\r\n", n);
    }
  }

  lemma CountOne(line: string, n: string)
    ensures CountNamed([line], n) == if Named(line, n) then 1 else 0
  {
    assert [line][..0] == [];
  }

  /** Every printed header has its line. */
  lemma {:induction false} HeaderHasLine(order: seq<string>, headers: map<string, string>, k: string)
    requires forall x :: x in order ==> x in headers
    requires Legible(headers) && k in order && Norm(k) != CONTENT_LENGTH
    ensures MakeHeader(Norm(k), headers[k]) + "\r\n" in LinesIn(HeaderLines(order, headers))
    decreases |order|
  {
    var last, before := order[|order| - 1], order[..|order| - 1];
    HeaderLinesAre(before, headers, "");
    LinesConcat(HeaderLines(before, headers), HeaderLine(last, headers[last]));
    HeaderLineIs(last, headers[last], "");
    if k != last {
      assert k in before;
      HeaderHasLine(before, headers, k);
    }
  }

  // ----- counting headers once -----

  lemma {:induction false} NamedAsOnce(order: seq<string>, n: string)
    requires Once(order) && n != CONTENT_LENGTH
    ensures NamedAs(order, n) == |Visited(order, k => Norm(k) == n)|
    decreases |order|
  {
    if order != [] {
      var last, before := order[|order| - 1], order[..|order| - 1];
      NamedAsOnce(before, n);
      VisitedSnoc(before, last, k => Norm(k) == n);
      assert order == before + [last];
    }
  }

  /** The visited headers of a kind. */
  ghost function Visited(order: seq<string>, kind: string -> bool): set<string> {
    set k | k in order && kind(k)
  }

  lemma VisitedSnoc(before: seq<string>, last: string, kind: string -> bool)
    requires Once(before + [last])
    ensures |Visited(before + [last], kind)| == |Visited(before, kind)| + if kind(last) then 1 else 0
  {
    var all, earlier := Visited(before + [last], kind), Visited(before, kind);
    forall i | 0 <= i < |before|
      ensures before[i] != last
    {
      assert (before + [last])[i] != (before + [last])[|before|];
    }
    assert all == if kind(last) then earlier + {last} else earlier;
  }

  lemma {:induction false} PrintedOnce(order: seq<string>)
    requires Once(order)
    ensures Printed(order) == |Visited(order, k => Norm(k) != CONTENT_LENGTH)|
    decreases |order|
  {
    if order != [] {
      var last, before := order[|order| - 1], order[..|order| - 1];
      PrintedOnce(before);
      VisitedSnoc(before, last, k => Norm(k) != CONTENT_LENGTH);
      assert order == before + [last];
    }
  }

  /** The headers that are printed, and those of one name. */
  ghost function PrintedKeys(headers: map<string, string>): set<string> {
    set k | k in headers && Norm(k) != CONTENT_LENGTH
  }

  ghost function KeysNamed(headers: map<string, string>, n: string): set<string> {
    set k | k in headers && Norm(k) == n
  }

  // ----- the whole text -----

  /** The head of what was sent: all of it but the body. */
  function HeadOf(sent: string, body: string): string
    requires |body| <= |sent|
  {
    sent[..|sent| - |body|]
  }

  /**
    Everything that is sent for clean headers: a status line, one line per header that is not a Content-Length, one
    Content-Length line with the length of the body, a blank line, and then the body.
   */
  ghost predicate WellPrinted(sent: string, status: int, headers: map<string, string>, body: string) {
    && |body| <= |sent| && sent == HeadOf(sent, body) + body
    && var lines := LinesIn(HeadOf(sent, body));
    && Complete(HeadOf(sent, body))
    && |lines| == 3 + |PrintedKeys(headers)|
    && lines[0] == "HTTP/1.1 " + Itoa(status) + "\r\n"
    && lines[|lines| - 1] == "\r\n"
    && "Content-Length: " + Itoa(|body|) + "\r\n" in lines
    && (forall k :: k in headers && Norm(k) != CONTENT_LENGTH ==> Norm(k) + ": " + headers[k] + "\r\n" in lines)
    && CountNamed(lines, CONTENT_LENGTH) == 1
    && forall n :: n != CONTENT_LENGTH ==> CountNamed(lines, n) == |KeysNamed(headers, n)|
  }

  /** The four parts of the head and their lines. */
  lemma HeadLines(status: int, order: seq<string>, headers: map<string, string>, body: string) returns (head: string)
    requires (forall k :: k in order ==> k in headers) && Legible(headers)
    ensures Print(status, order, headers, body) == head + body && Complete(head)
    ensures LinesIn(head) == [StatusLine(status)] + LinesIn(HeaderLines(order, headers))
      + [MakeHeader(CONTENT_LENGTH, Itoa(|body|)) + "\r\n"] + ["\r\n"]
  {
    var lines, length := HeaderLines(order, headers), MakeHeader(CONTENT_LENGTH, Itoa(|body|)) + "\r\n";
    head := StatusLine(status) + lines + length + "\r\n";
    Reassociate(StatusLine(status), lines, length, "\r\n", body);
    StatusIsOneLine(status);
    HeaderLinesAre(order, headers, "");
    LengthIsOneLine(|body|);
    OneLine("\r");
    assert "\r" + "\n" == "\r\n";
    LinesConcat(StatusLine(status), lines);
    EndsComplete(StatusLine(status), lines);
    LinesConcat(StatusLine(status) + lines, length);
    EndsComplete(StatusLine(status) + lines, length);
    LinesConcat(StatusLine(status) + lines + length, "\r\n");
  }

  lemma Reassociate(a: string, b: string, c: string, d: string, e: string)
    ensures a + b + (c + d + e) == a + b + c + d + e
  {
  }

  lemma StatusIsOneLine(status: int)
    ensures LinesIn(StatusLine(status)) == [StatusLine(status)] && Complete(StatusLine(status))
    ensures forall n :: !Named(StatusLine(status), n)
  {
    var before := "HTTP/1.1 " + Itoa(status) + "\r";
    assert StatusLine(status) == before + "\n";
    OneLine(before);
    assert ':' !in StatusLine(status);
    assert IndexOf(StatusLine(status), ':') == |StatusLine(status)|;
  }

  lemma LengthIsOneLine(n: nat)
    ensures var line := MakeHeader(CONTENT_LENGTH, Itoa(n)) + "\r\n";
      && LinesIn(line) == [line] && Complete(line) && forall x :: Named(line, x) <==> x == CONTENT_LENGTH
  {
    assert CleanValue(Itoa(n)) by {
      assert Itoa(n)[0] in Itoa(n) && Itoa(n)[|Itoa(n)| - 1] in Itoa(n);
    }
    assert Norm(CONTENT_LENGTH) == CONTENT_LENGTH;
    HeaderIsOneLine(CONTENT_LENGTH, Itoa(n));
  }

  lemma LengthText(digits: string)
    ensures MakeHeader(CONTENT_LENGTH, digits) + "\r\n" == "Content-Length: " + digits + "\r\n"
  {
    assert CONTENT_LENGTH + ": " == "Content-Length: ";
  }

  lemma BlankHasNoName(n: string)
    ensures !Named("\r\n", n)
  {
    assert IndexOf("\r\n", ':') == 2;
  }

  /** What `Write` prints for clean headers, whatever the order in which it visits them. */
  lemma PrintsWell(status: int, order: seq<string>, headers: map<string, string>, body: string)
    requires Visits(order, headers) && Once(order) && Legible(headers)
    ensures WellPrinted(Print(status, order, headers, body), status, headers, body)
  {
    var head := HeadLines(status, order, headers, body);
    assert HeadOf(Print(status, order, headers, body), body) == head;
    LinesOfHead(status, order, headers, body, head);
    forall n
      ensures CountNamed(LinesIn(head), n) == if n == CONTENT_LENGTH then 1 else |KeysNamed(headers, n)|
    {
      CountsInHead(status, order, headers, body, head, n);
    }
  }

  lemma LinesOfHead(status: int, order: seq<string>, headers: map<string, string>, body: string, head: string)
    requires Visits(order, headers) && Once(order) && Legible(headers)
    requires LinesIn(head) == [StatusLine(status)] + LinesIn(HeaderLines(order, headers))
      + [MakeHeader(CONTENT_LENGTH, Itoa(|body|)) + "\r\n"] + ["\r\n"]
    ensures var lines := LinesIn(head);
      && |lines| == 3 + |PrintedKeys(headers)|
      && lines[0] == "HTTP/1.1 " + Itoa(status) + "\r\n" && lines[|lines| - 1] == "\r\n"
      && "Content-Length: " + Itoa(|body|) + "\r\n" in lines
      && forall k :: k in headers && Norm(k) != CONTENT_LENGTH ==> Norm(k) + ": " + headers[k] + "\r\n" in lines
  {
    LengthText(Itoa(|body|));
    assert LinesIn(head)[|LinesIn(head)| - 2] == "Content-Length: " + Itoa(|body|) + "\r\n";
    HeaderLinesAre(order, headers, "");
    PrintedOnce(order);
    assert Visited(order, k => Norm(k) != CONTENT_LENGTH) == PrintedKeys(headers);
    forall k | k in headers && Norm(k) != CONTENT_LENGTH
      ensures Norm(k) + ": " + headers[k] + "\r\n" in LinesIn(head)
    {
      HeaderHasLine(order, headers, k);
    }
  }

  lemma CountsInHead(status: int, order: seq<string>, headers: map<string, string>, body: string, head: string,
                     n: string)
    requires Visits(order, headers) && Once(order) && Legible(headers)
    requires LinesIn(head) == [StatusLine(status)] + LinesIn(HeaderLines(order, headers))
      + [MakeHeader(CONTENT_LENGTH, Itoa(|body|)) + "\r\n"] + ["\r\n"]
    ensures CountNamed(LinesIn(head), n) == if n == CONTENT_LENGTH then 1 else |KeysNamed(headers, n)|
  {
    var a, b := [StatusLine(status)], LinesIn(HeaderLines(order, headers));
    var c, d := [MakeHeader(CONTENT_LENGTH, Itoa(|body|)) + "\r\n"], ["\r\n"];
    CountConcat(a + b + c, d, n);
    CountConcat(a + b, c, n);
    CountConcat(a, b, n);
    CountOne(a[0], n);
    CountOne(c[0], n);
    CountOne(d[0], n);
    StatusIsOneLine(status);
    LengthIsOneLine(|body|);
    BlankHasNoName(n);
    HeaderLinesAre(order, headers, n);
    if n == CONTENT_LENGTH {
      NoneNamed(order);
    } else {
      NamedAsOnce(order, n);
      assert Visited(order, k => Norm(k) == n) == KeysNamed(headers, n);
    }
  }

  lemma {:induction false} NoneNamed(order: seq<string>)
    ensures NamedAs(order, CONTENT_LENGTH) == 0
  {
    if order != [] {
      NoneNamed(order[..|order| - 1]);
    }
  }
}
