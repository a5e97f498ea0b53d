/** The string operations the program takes from its library, ASCII throughout. */
module Text {
  import opened Wrappers

  /** strings.IndexByte; |s| stands for "not found". */
  function IndexOf(s: string, c: char): (i: nat)
    ensures i <= |s|
    ensures forall k | 0 <= k < i :: s[k] != c
    ensures i < |s| ==> s[i] == c
  {
    if s == "" || s[0] == c then 0 else 1 + IndexOf(s[1..], c)
  }

  /** strings.LastIndex; -1 when absent. */
  function LastIndexOf(s: string, c: char): (i: int)
    ensures -1 <= i < |s|
    ensures forall k | i < k < |s| :: s[k] != c
    ensures i >= 0 ==> s[i] == c
  {
    if s == "" then -1
    else if s[|s| - 1] == c then |s| - 1
    else LastIndexOf(s[..|s| - 1], c)
  }

  predicate HasPrefix(s: string, p: string) {
    |p| <= |s| && s[..|p|] == p
  }

  /** Blank, or one of the five control characters from tab to carriage return. */
  predicate IsSpace(c: char) { c == ' ' || 9 <= c as int <= 13 }

  lemma SpacesAre(c: char)
    ensures IsSpace(c) <==> c in {' ', '\t', '\n', '\U{0B}', '\U{0C}', '\r'}
  {
  }

  /** strings.TrimSpace */
  function Trim(s: string): (r: string)
    ensures r != "" ==> !IsSpace(r[0]) && !IsSpace(r[|r| - 1])
    ensures |r| <= |s|
    decreases |s|
  {
    if s == "" then ""
    else if IsSpace(s[0]) then Trim(s[1..])
    else if IsSpace(s[|s| - 1]) then Trim(s[..|s| - 1])
    else s
  }

  function Split(s: string, sep: char): (parts: seq<string>)
    ensures parts != []
    decreases |s|
  {
    var i := IndexOf(s, sep);
    if i == |s| then [s] else [s[..i]] + Split(s[i + 1..], sep)
  }

  // ----- decimal numbers -----

  predicate IsDigit(c: char) { '0' <= c <= '9' }

  predicate AllDigits(s: string) { forall k | 0 <= k < |s| :: IsDigit(s[k]) }

  function DigitValue(c: char): nat
    requires IsDigit(c)
  {
    c as int - '0' as int
  }

  function NatOf(s: string): nat
    requires AllDigits(s)
  {
    if s == "" then 0 else 10 * NatOf(s[..|s| - 1]) + DigitValue(s[|s| - 1])
  }

  /** A non-empty run of digits. */
  function ParseNat(s: string): Option<nat> {
    if s != "" && AllDigits(s) then Some(NatOf(s)) else None
  }

  /** strconv.Atoi: an optional sign, then digits. */
  function Atoi(s: string): Option<int> {
    if s != "" && s[0] == '-' then
      (match ParseNat(s[1..]) case Some(n) => Some(-(n as int)) case None => None)
    else if s != "" && s[0] == '+' then ParseNat(s[1..])
    else ParseNat(s)
  }

  function DigitChar(d: nat): char
    requires d < 10
  {
    (d + '0' as int) as char
  }

  /** strconv.Itoa on a natural number. */
  function Itoa(n: nat): string {
    if n < 10 then [DigitChar(n)] else Itoa(n / 10) + [DigitChar(n % 10)]
  }

  /** strconv.Itoa */
  function ItoaInt(n: int): string { if n < 0 then "-" + Itoa(-n) else Itoa(n) }

  lemma {:induction false} ItoaParses(n: nat)
    ensures Itoa(n) != "" && AllDigits(Itoa(n)) && NatOf(Itoa(n)) == n
  {
    var s := Itoa(n);
    if n < 10 {
      assert NatOf(s[..0]) == 0;
    } else {
      ItoaParses(n / 10);
      assert s[..|s| - 1] == Itoa(n / 10);
    }
  }

  /** Printing a port and reading it back. */
  lemma AtoiItoa(n: nat)
    ensures Atoi(Itoa(n)) == Some(n)
    ensures forall k | 0 <= k < |Itoa(n)| :: IsDigit(Itoa(n)[k])
  {
    ItoaParses(n);
    assert IsDigit(Itoa(n)[0]);
  }

  lemma IndexOfFirst(s: string, i: nat, c: char)
    requires i < |s| && s[i] == c && forall k | 0 <= k < i :: s[k] != c
    ensures IndexOf(s, c) == i
  {
  }

  lemma IndexOfAbsent(s: string, c: char)
    requires c !in s
    ensures IndexOf(s, c) == |s|
  {
    assert forall k | 0 <= k < |s| :: s[k] in s;
  }

  lemma LastIndexOfLast(s: string, i: nat, c: char)
    requires i < |s| && s[i] == c && forall k | i < k < |s| :: s[k] != c
    ensures LastIndexOf(s, c) == i
  {
  }

  lemma LastIndexOfAbsent(s: string, c: char)
    requires c !in s
    ensures LastIndexOf(s, c) == -1
  {
    assert forall k | 0 <= k < |s| :: s[k] in s;
  }

  lemma TrimIdempotent(s: string)
    ensures Trim(Trim(s)) == Trim(s)
  {
  }

  /** Nothing to trim when neither end is a blank. */
  lemma TrimFixes(s: string)
    requires s != "" ==> !IsSpace(s[0]) && !IsSpace(s[|s| - 1])
    ensures Trim(s) == s
  {
  }

  /** strings.TrimPrefix with a single character. */
  function TrimPrefix(s: string, c: char): string {
    if s != "" && s[0] == c then s[1..] else s
  }

  /** More than one part exactly when the separator occurs. */
  lemma SplitCount(s: string, sep: char)
    ensures |Split(s, sep)| >= 2 <==> sep in s
  {
    if sep in s {
      var k :| 0 <= k < |s| && s[k] == sep;
      assert IndexOf(s, sep) <= k;
    }
  }

  // ----- words -----

  /** Where the word at the head of s ends. */
  function WordEnd(s: string): (n: nat)
    ensures n <= |s| && (forall k | 0 <= k < n :: !IsSpace(s[k])) && (n < |s| ==> IsSpace(s[n]))
  {
    if s == "" || IsSpace(s[0]) then 0 else 1 + WordEnd(s[1..])
  }

  /** strings.Fields */
  function Fields(s: string): seq<string>
    decreases |s|
  {
    if s == "" then []
    else if IsSpace(s[0]) then Fields(s[1..])
    else [s[..WordEnd(s)]] + Fields(s[WordEnd(s)..])
  }

  predicate IsWord(s: string) { s != "" && forall k | 0 <= k < |s| :: !IsSpace(s[k]) }

  /** A word in front of nothing or of a blank is one field. */
  lemma FieldsCons(w: string, rest: string)
    requires IsWord(w) && (rest == "" || IsSpace(rest[0]))
    ensures Fields(w + rest) == [w] + Fields(rest)
  {
    var s := w + rest;
    var n := WordEnd(s);
    assert forall k | 0 <= k < |w| :: s[k] == w[k];
    assert |w| < |s| ==> s[|w|] == rest[0];
    assert n == |w| && s[..n] == w && s[n..] == rest;
  }

  lemma FieldsBlank(s: string)
    ensures Fields(" " + s) == Fields(s)
  {
    assert (" " + s)[1..] == s;
  }
}
