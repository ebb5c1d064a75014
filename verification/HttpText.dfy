/**
  The text operations internal/httpserver relies on: splitting and joining, trimming, letter case and
  decimal numbers. A char stands for one byte; letter case and white space are those of ASCII.
 */
module HttpText {
  import opened Values

  // ----- letter case -----

  function Upper(c: char): char {
    if 'a' <= c <= 'z' then (c as int - 32) as char else c
  }

  function Lower(c: char): char {
    if 'A' <= c <= 'Z' then (c as int + 32) as char else c
  }

  function LowerAll(s: string): string {
    seq(|s|, i requires 0 <= i < |s| => Lower(s[i]))
  }

  // ----- searching, splitting and joining -----

  /** The first position of `c`, or the length when there is none. */
  function IndexOf(s: string, c: char): (k: nat)
    ensures k <= |s| && (k < |s| ==> s[k] == c)
    ensures forall i :: 0 <= i < k ==> s[i] != c
  {
    if s == "" || s[0] == c then 0 else 1 + IndexOf(s[1..], c)
  }

  lemma IndexOfFirst(s: string, c: char, k: nat)
    requires k < |s| && s[k] == c && forall i :: 0 <= i < k ==> s[i] != c
    ensures IndexOf(s, c) == k
  {
  }

  function Split(s: string, sep: char): (parts: seq<string>)
    ensures |parts| > 0
    decreases |s|
  {
    var k := IndexOf(s, sep);
    if k == |s| then [s] else [s[..k]] + Split(s[k + 1..], sep)
  }

  function Join(parts: seq<string>, sep: char): string {
    if parts == [] then "" else if |parts| == 1 then parts[0] else parts[0] + [sep] + Join(parts[1..], sep)
  }

  // ----- trimming -----

  predicate IsSpace(c: char) {
    c == ' ' || c == '\t' || c == '\n' || c == '\r' || c as int == 11 || c as int == 12
  }

  predicate Trimmed(s: string) {
    s == "" || (!IsSpace(s[0]) && !IsSpace(s[|s| - 1]))
  }

  function TrimSpace(s: string): (r: string)
    ensures Trimmed(r)
    ensures forall c :: c in r ==> c in s
    decreases |s|
  {
    if s != "" && IsSpace(s[0]) then TrimSpace(s[1..])
    else if s != "" && IsSpace(s[|s| - 1]) then TrimSpace(s[..|s| - 1])
    else s
  }

  /** White space is what ASCII calls so: tab to carriage return, and space. */
  lemma SpacesAre(c: char)
    ensures IsSpace(c) <==> 9 <= c as int <= 13 || c as int == 32
  {
    assert '\t' as int == 9 && '\n' as int == 10 && '\r' as int == 13 && ' ' as int == 32;
  }

  /** White space on both sides is taken off and nothing else. */
  lemma {:induction false} TrimsExactly(before: string, s: string, after: string)
    requires Trimmed(s)
    requires (forall c :: c in before ==> IsSpace(c)) && (forall c :: c in after ==> IsSpace(c))
    ensures TrimSpace(before + s + after) == s
    decreases |before| + |after|
  {
    var all := before + s + after;
    if before != "" {
      assert all[0] == before[0] && all[1..] == before[1..] + s + after;
      TrimsExactly(before[1..], s, after);
    } else if after != "" {
      assert before + s == s;
      var last := |after| - 1;
      assert all[|all| - 1] == after[last] && all[..|all| - 1] == before + s + after[..last];
      if s == "" {
        assert all == after && all[1..] == before + s + after[1..] && all[0] == after[0];
        TrimsExactly(before, s, after[1..]);
      } else {
        assert all[0] == s[0];
        TrimsExactly(before, s, after[..last]);
      }
    } else {
      assert all == s;
    }
  }

  // ----- decimal numbers -----

  predicate IsDigit(c: char) { '0' <= c <= '9' }

  function Digits(n: nat): (s: string)
    ensures s != "" && forall c :: c in s ==> IsDigit(c)
  {
    var last := [('0' as int + n % 10) as char];
    if n < 10 then last else Digits(n / 10) + last
  }

  function Itoa(n: int): (s: string)
    ensures s != "" && forall c :: c in s ==> IsDigit(c) || c == '-'
  {
    if n < 0 then "-" + Digits(-n) else Digits(n)
  }

  function DigitValue(c: char): nat
    requires IsDigit(c)
  {
    c as int - '0' as int
  }

  function Value(s: string): nat
    requires forall c :: c in s ==> IsDigit(c)
  {
    if s == "" then 0
    else
      var last := s[|s| - 1];
      assert last in s;
      10 * Value(s[..|s| - 1]) + DigitValue(last)
  }

  function Unsigned(s: string): Option<int> {
    if s != "" && forall c :: c in s ==> IsDigit(c) then Some(Value(s)) else None
  }

  /** A 64-bit decimal number with an optional sign; anything else is an error. */
  function Atoi(s: string): Option<int> {
    var negative := s != "" && s[0] == '-';
    var digits := if s != "" && (s[0] == '-' || s[0] == '+') then s[1..] else s;
    match Unsigned(digits)
    case None => None
    case Some(v) =>
      var n := if negative then -v else v;
      if -TWO_63 <= n < TWO_63 then Some(n) else None
  }

  lemma {:induction false} ValueOfDigits(n: nat)
    ensures Value(Digits(n)) == n
  {
    if n >= 10 {
      ValueOfDigits(n / 10);
      var s := Digits(n);
      assert s[..|s| - 1] == Digits(n / 10);
    }
  }

  lemma AtoiOfItoa(n: int)
    requires -TWO_63 <= n < TWO_63
    ensures Atoi(Itoa(n)) == Some(n)
  {
    var v := if n < 0 then -n else n;
    ValueOfDigits(v);
    if n < 0 {
      assert Itoa(n)[1..] == Digits(v);
    } else {
      assert Digits(v)[0] in Digits(v);
    }
  }

  /** Numbers are decimal: the last digit counts ones, and the others ten times as much. */
  lemma DecimalDigits(n: nat)
    ensures Itoa(n) == (if n < 10 then "" else Itoa(n / 10)) + ["0123456789"[n % 10]]
    ensures n > 0 ==> Itoa(0 - n) == "-" + Itoa(n)
  {
  }

  /** Only digits with an optional sign are a number. */
  lemma AtoiRejects(s: string, i: nat)
    requires i < |s| && !IsDigit(s[i]) && !(i == 0 && (s[0] == '-' || s[0] == '+'))
    ensures Atoi(s) == None && Atoi("") == None && Atoi("-") == None && Atoi("+") == None
  {
    var digits := if s[0] == '-' || s[0] == '+' then s[1..] else s;
    assert s[i] in digits by {
      assert digits != s ==> digits[i - 1] == s[i];
    }
  }

  /** A sign may come first; a number that does not fit into 64 bits is refused. */
  lemma AtoiSigned(n: nat)
    ensures Atoi("+" + Digits(n)) == if n < TWO_63 then Some(n) else None
    ensures Atoi("-" + Digits(n)) == if n <= TWO_63 then Some(0 - n) else None
  {
    AtoiAfterSign(n, "+");
    AtoiAfterSign(n, "-");
  }

  lemma AtoiAfterSign(n: nat, sign: string)
    requires sign == "+" || sign == "-"
    ensures var v: int := if sign == "-" then 0 - n else n;
      Atoi(sign + Digits(n)) == if -TWO_63 <= v < TWO_63 then Some(v) else None
  {
    ValueOfDigits(n);
    assert (sign + Digits(n))[1..] == Digits(n);
  }
}
