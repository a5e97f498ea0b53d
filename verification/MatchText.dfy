/**
 The match rule of an IngressRoute as text (internal/k8sdriver/deployer.go:858-914), and how the ingress
 controller reads it: Go expression syntax with raw string arguments (The Go Programming Language Specification,
 sections "String literals" and "Operators"), where `!` binds before `&&` and `&&` before `||`.
 */
module MatchText {
  import opened Wrappers
  import opened Text

  // ----- what the deployer writes -----

  function HostAtom(host: string): string { "Host(`" + host + "`)" }

  function PrefixAtom(prefix: string): string { "PathPrefix(`" + prefix + "`)" }

  /** strings.Join(parts, " || ") */
  function OrJoin(parts: seq<string>): string {
    if parts == [] then "" else if |parts| == 1 then parts[0] else parts[0] + (" || " + OrJoin(parts[1..]))
  }

  function HostAtoms(hosts: seq<string>): seq<string> { seq(|hosts|,
      k requires 0 <= k < |hosts| => HostAtom(hosts[k])) }

  function HostMatch(hosts: seq<string>): string {
    if |hosts| > 1 then "(" + (OrJoin(HostAtoms(hosts)) + ")") else OrJoin(HostAtoms(hosts))
  }

  function MatchRule(hostMatch: string, prefix: string): string { hostMatch + (" && " + PrefixAtom(prefix)) }

  method BuildHostMatch(hosts: seq<string>) returns (hostMatch: string)
    requires hosts != []
    ensures hostMatch == HostMatch(hosts)
  {
    var hostList: seq<string> := [];
    for i := 0 to |hosts|
      invariant hostList == HostAtoms(hosts[..i])
    {
      hostList := hostList + [HostAtom(hosts[i])];
    }
    assert hosts[..|hosts|] == hosts;
    hostMatch := hostList[0];
    if |hostList| > 1 {
      hostMatch := "(" + (OrJoin(hostList) + ")");
    }
  }

  // ----- tokens -----

  const TICK := '`'

  /** Neither may stand in a text at all: the byte order mark behind its first character, and NUL. */
  predicate Illegal(s: string) { '\U{FEFF}' in s || '\0' in s }

  /** What a raw string can denote: it ends at the first backtick. */
  type Arg = s: string | TICK !in s

  datatype Token = HostWord | PrefixWord | LPar | RPar | Not | AndAnd | OrOr | Quoted(arg: Arg)

  /** Carriage returns inside a raw string are dropped. */
  function Uncarriage(s: string): (r: string)
    ensures |r| <= |s| && (r == s <==> '\r' !in s)
    ensures forall c | c in r :: c in s
  {
    if s == "" then ""
    else if s[0] == '\r' then Uncarriage(s[1..])
    else
      assert s == [s[0]] + s[1..];
      [s[0]] + Uncarriage(s[1..])
  }

  /** The raw string at the head of `s`, after its opening backtick, and what follows it. */
  function RawString(s: string): (r: Option<(Arg, string)>)
    ensures r.Some? ==> |r.value.1| < |s|
  {
    var i := IndexOf(s, TICK);
    if i == |s| || Illegal(s[..i]) then None else Some((Uncarriage(s[..i]), s[i + 1..]))
  }

  function Push(t: Token, ts: Option<seq<Token>>): Option<seq<Token>> {
    if ts.Some? then Some([t] + ts.value) else None
  }

  predicate IsBlank(c: char) { c == ' ' || c == '\t' }

  /** The sign or word at the head of `s`, and its length. */
  function Fixed(s: string): (r: Option<(Token, nat)>)
    ensures r.Some? ==> 0 < r.value.1 <= |s|
  {
    if HasPrefix(s, "(") then Some((LPar, 1))
    else if HasPrefix(s, ")") then Some((RPar, 1))
    else if HasPrefix(s, "!") then Some((Not, 1))
    else if HasPrefix(s, "&&") then Some((AndAnd, 2))
    else if HasPrefix(s, "||") then Some((OrOr, 2))
    else if HasPrefix(s, "Host") then Some((HostWord, 4))
    else if HasPrefix(s, "PathPrefix") then Some((PrefixWord, 10))
    else None
  }

  function Lex(s: string): Option<seq<Token>>
    decreases |s|
  {
    if s == "" then Some([])
    else if IsBlank(s[0]) then Lex(s[1..])
    else if s[0] == TICK then
      (match RawString(s[1..])
       case Some(r) => Push(Quoted(r.0), Lex(r.1))
       case None => None)
    else
      match Fixed(s)
      case Some(f) => Push(f.0, Lex(s[f.1..]))
      case None => None
  }

  // ----- expressions -----

  datatype Expr =
    | HostIs(host: Arg)
    | PrefixIs(prefix: Arg)
    | Neg(e: Expr)
    | Both(a: Expr, b: Expr)
    | Either(a: Expr, b: Expr)

  predicate Means(e: Expr, host: string, path: string) {
    match e
    case HostIs(h) => host == h
    case PrefixIs(p) => HasPrefix(path, p)
    case Neg(f) => !Means(f, host, path)
    case Both(a, b) => Means(a, host, path) && Means(b, host, path)
    case Either(a, b) => Means(a, host, path) || Means(b, host, path)
  }

  datatype Parsed = NoParse | Parsed(e: Expr, rest: seq<Token>)

  predicate Starts(ts: seq<Token>, t: Token) { ts != [] && ts[0] == t }

  function ParseOr(ts: seq<Token>): (r: Parsed)
    ensures r.Parsed? ==> |r.rest| < |ts|
    decreases |ts|, 2
  {
    var a := ParseAnd(ts);
    if a.NoParse? || !Starts(a.rest, OrOr) then a
    else
      var b := ParseOr(a.rest[1..]);
      if b.NoParse? then b else Parsed(Either(a.e, b.e), b.rest)
  }

  function ParseAnd(ts: seq<Token>): (r: Parsed)
    ensures r.Parsed? ==> |r.rest| < |ts|
    decreases |ts|, 1
  {
    var a := ParseUnary(ts);
    if a.NoParse? || !Starts(a.rest, AndAnd) then a
    else
      var b := ParseAnd(a.rest[1..]);
      if b.NoParse? then b else Parsed(Both(a.e, b.e), b.rest)
  }

  function ParseUnary(ts: seq<Token>): (r: Parsed)
    ensures r.Parsed? ==> |r.rest| < |ts|
    decreases |ts|, 0
  {
    if Starts(ts, Not) then
      var a := ParseUnary(ts[1..]);
      if a.NoParse? then a else Parsed(Neg(a.e), a.rest)
    else if Starts(ts, LPar) then
      var a := ParseOr(ts[1..]);
      if a.NoParse? || !Starts(a.rest, RPar) then NoParse else Parsed(a.e, a.rest[1..])
    else if |ts| >= 4 && (ts[0].HostWord? || ts[0].PrefixWord?) && ts[1].LPar? && ts[2].Quoted? && ts[3].RPar? then
      if ts[0].PrefixWord? && !HasPrefix(ts[2].arg, "/") then NoParse
      else Parsed(if ts[0].HostWord? then HostIs(ts[2].arg) else PrefixIs(ts[2].arg), ts[4..])
    else NoParse
  }

  /** The whole text is one expression, or the controller rejects the route. */
  function Read(text: string): Option<Expr> {
    var ts := Lex(text);
    if ts.None? then None
    else
      var r := ParseOr(ts.value);
      if r.Parsed? && r.rest == [] then Some(r.e) else None
  }

  /** The route with this match text takes the request; one that cannot be read takes none. */
  predicate Answers(text: string, host: string, path: string) {
    Read(text).Some? && Means(Read(text).value, host, path)
  }

  // ----- reading what the deployer writes -----

  function AtomTokens(word: Token, x: Arg): seq<Token> { [word, LPar, Quoted(Uncarriage(x)), RPar] }

  lemma RawStringEnds(x: string, rest: string)
    requires TICK !in x
    ensures RawString(x + ([TICK] + rest)) == if Illegal(x) then None else Some((Uncarriage(x), rest))
  {
    var s := x + ([TICK] + rest);
    assert s[|x|] == TICK && forall k | 0 <= k < |x| :: s[k] == x[k];
    assert forall k | 0 <= k < |x| :: x[k] in x;
    IndexOfFirst(s, |x|, TICK);
    assert s[..|x|] == x && s[|x| + 1..] == rest;
  }

  function Pushed(front: seq<Token>, ts: Option<seq<Token>>): Option<seq<Token>> {
    if ts.Some? then Some(front + ts.value) else None
  }

  /** One sign or word, and then the rest. */
  lemma LexFixed(w: string, t: Token, s: string)
    requires w != "" && !IsBlank(w[0]) && w[0] != TICK && Fixed(w + s) == Some((t, |w|))
    ensures Lex(w + s) == Push(t, Lex(s))
  {
    assert (w + s)[0] == w[0] && (w + s)[|w|..] == s;
    hide Fixed, RawString, Push;
  }

  lemma Parens(s: string)
    ensures Fixed("(" + s) == Some((LPar, 1)) && Fixed(")" + s) == Some((RPar, 1))
  {
    assert ("(" + s)[..1] == "(" && (")" + s)[..1] == ")" && "("[0] != ")"[0];
  }

  lemma LexParens(s: string)
    ensures Lex("(" + s) == Push(LPar, Lex(s)) && Lex(")" + s) == Push(RPar, Lex(s))
  {
    hide Lex, Fixed;
    Parens(s);
    LexFixed("(", LPar, s);
    LexFixed(")", RPar, s);
  }

  lemma LexTick(s: string)
    ensures Lex([TICK] + s) == if RawString(s).Some? then Push(Quoted(RawString(s).value.0), Lex(RawString(s).value.1)) else None
  {
    assert ([TICK] + s)[1..] == s;
    hide RawString, Push, Fixed;
  }

  lemma ArgumentText(x: string, rest: string)
    ensures "(`" + x + "`)" + rest == "(" + ([TICK] + (x + ([TICK] + (")" + rest))))
  {
  }

  /** "(`x`)" is three tokens, unless the scanner stops inside. */
  lemma LexArgument(x: string, rest: string)
    requires TICK !in x
    ensures Lex("(`" + x + "`)" + rest)
            == if Illegal(x) then None else Pushed([LPar, Quoted(Uncarriage(x)), RPar], Lex(rest))
  {
    hide *;
    var s3 := ")" + rest;
    var s2 := x + ([TICK] + s3);
    ArgumentText(x, rest);
    RawStringEnds(x, s3);
    LexParens([TICK] + s2);
    LexTick(s2);
    LexParens(rest);
    PushedThrice(LPar, Quoted(Uncarriage(x)), RPar, Lex(rest));
    PushNothing(LPar);
  }

  lemma PushNothing(t: Token)
    ensures Push(t, None) == None
  {
  }

  lemma PushedThrice(a: Token, b: Token, c: Token, ts: Option<seq<Token>>)
    ensures Push(a, Push(b, Push(c, ts))) == Pushed([a, b, c], ts)
  {
    if ts.Some? { assert [a] + ([b] + ([c] + ts.value)) == [a, b, c] + ts.value; }
  }

  lemma Words(s: string)
    ensures Fixed("Host" + s) == Some((HostWord, 4)) && Fixed("PathPrefix" + s) == Some((PrefixWord, 10))
  {
    var h, p := "Host" + s, "PathPrefix" + s;
    assert h[0] == 'H' && p[0] == 'P';
    assert h[..4] == "Host" && p[..10] == "PathPrefix";
    OtherHead(h, "("); OtherHead(h, ")"); OtherHead(h, "!"); OtherHead(h, "&&"); OtherHead(h, "||");
    OtherHead(p, "("); OtherHead(p, ")"); OtherHead(p, "!"); OtherHead(p, "&&"); OtherHead(p, "||");
    OtherHead(p, "Host");
  }

  lemma OtherHead(s: string, w: string)
    requires s != "" && w != "" && s[0] != w[0]
    ensures !HasPrefix(s, w)
  {
    if |w| <= |s| { assert s[..|w|][0] == s[0]; }
  }

  lemma LexHostWord(s: string)
    ensures Lex("Host" + s) == Push(HostWord, Lex(s))
  {
    hide Lex, Fixed;
    Words(s);
    LexFixed("Host", HostWord, s);
  }

  lemma LexPrefixWord(s: string)
    ensures Lex("PathPrefix" + s) == Push(PrefixWord, Lex(s))
  {
    hide Lex, Fixed;
    Words(s);
    LexFixed("PathPrefix", PrefixWord, s);
  }

  lemma HostAtomText(host: string, rest: string)
    ensures HostAtom(host) + rest == "Host" + ("(`" + host + "`)" + rest)
  {
  }

  lemma PrefixAtomText(prefix: string, rest: string)
    ensures PrefixAtom(prefix) + rest == "PathPrefix" + ("(`" + prefix + "`)" + rest)
  {
  }

  lemma PushedAtom(word: Token, x: Arg, ts: Option<seq<Token>>)
    ensures Push(word, Pushed([LPar, Quoted(Uncarriage(x)), RPar], ts)) == Pushed(AtomTokens(word, x), ts)
  {
    hide Uncarriage;
    var args := [LPar, Quoted(Uncarriage(x)), RPar];
    assert [word] + args == AtomTokens(word, x);
    if ts.Some? { assert [word] + (args + ts.value) == ([word] + args) + ts.value; }
  }

  lemma NoMoreTokens(ts: seq<Token>)
    ensures Lex("") == Some([]) && Pushed(ts, Some([])) == Some(ts)
  {
    assert ts + [] == ts;
  }

  lemma LexHostAtom(host: string, rest: string)
    requires TICK !in host && !Illegal(host)
    ensures Lex(HostAtom(host) + rest) == Pushed(AtomTokens(HostWord, host), Lex(rest))
  {
    hide *;
    HostAtomText(host, rest);
    LexHostWord("(`" + host + "`)" + rest);
    LexArgument(host, rest);
    PushedAtom(HostWord, host, Lex(rest));
  }

  lemma LexPrefixAtom(prefix: string, rest: string)
    requires TICK !in prefix
    ensures Lex(PrefixAtom(prefix) + rest)
            == if Illegal(prefix) then None else Pushed(AtomTokens(PrefixWord, prefix), Lex(rest))
  {
    hide *;
    PrefixAtomText(prefix, rest);
    LexPrefixWord("(`" + prefix + "`)" + rest);
    LexArgument(prefix, rest);
    PushedAtom(PrefixWord, prefix, Lex(rest));
    PushNothing(PrefixWord);
  }

  lemma LexBlank(s: string)
    ensures Lex(" " + s) == Lex(s)
  {
    assert (" " + s)[1..] == s;
    hide RawString, Push, Fixed;
  }

  lemma Signs(s: string)
    ensures Fixed("&&" + s) == Some((AndAnd, 2)) && Fixed("||" + s) == Some((OrOr, 2))
  {
    var a, b := "&&" + s, "||" + s;
    assert a[0] == '&' && b[0] == '|';
    assert a[..2] == "&&" && b[..2] == "||";
    OtherHead(a, "("); OtherHead(a, ")"); OtherHead(a, "!");
    OtherHead(b, "("); OtherHead(b, ")"); OtherHead(b, "!"); OtherHead(b, "&&");
  }

  lemma LexAmps(s: string)
    ensures Lex("&&" + s) == Push(AndAnd, Lex(s))
  {
    hide Lex, Fixed;
    Signs(s);
    LexFixed("&&", AndAnd, s);
  }

  lemma LexBars(s: string)
    ensures Lex("||" + s) == Push(OrOr, Lex(s))
  {
    hide Lex, Fixed;
    Signs(s);
    LexFixed("||", OrOr, s);
  }

  lemma SignText(s: string)
    ensures " || " + s == " " + ("||" + (" " + s)) && " && " + s == " " + ("&&" + (" " + s))
  {
  }

  lemma LexSign(s: string)
    ensures Lex(" || " + s) == Push(OrOr, Lex(s)) && Lex(" && " + s) == Push(AndAnd, Lex(s))
  {
    hide *;
    SignText(s);
    LexBlank(s);
    LexBars(" " + s);
    LexBlank("||" + (" " + s));
    LexAmps(" " + s);
    LexBlank("&&" + (" " + s));
  }

  /** What the hostname pattern admits (internal/api/domains.go:21). */
  predicate HostText(h: string) {
    forall k | 0 <= k < |h| :: 'a' <= h[k] <= 'z' || '0' <= h[k] <= '9' || h[k] == '-' || h[k] == '.'
  }

  /** Nothing in it ends a raw string early, is dropped from one, or stops the scanner. */
  predicate Plain(s: string) { '`' !in s && '\r' !in s && '\U{FEFF}' !in s && '\0' !in s }

  lemma PlainIs(s: string)
    ensures Plain(s) <==> TICK !in s && '\r' !in s && !Illegal(s)
  {
  }

  lemma HostTextIsPlain(h: string)
    requires HostText(h)
    ensures Plain(h) && !Illegal(h)
  {
  }

  function ChainTokens(hosts: seq<Arg>): seq<Token>
    requires hosts != []
  {
    if |hosts| == 1 then AtomTokens(HostWord, hosts[0])
    else AtomTokens(HostWord, hosts[0]) + ([OrOr] + ChainTokens(hosts[1..]))
  }

  lemma ChainText(hosts: seq<string>, rest: string)
    requires hosts != []
    ensures OrJoin(HostAtoms(hosts)) + rest
            == HostAtom(hosts[0])
               + if |hosts| == 1 then rest else " || " + (OrJoin(HostAtoms(hosts[1..])) + rest)
  {
    hide HostAtom;
    assert HostAtoms(hosts)[1..] == HostAtoms(hosts[1..]);
  }

  lemma PushedSplit(a: seq<Token>, c: seq<Token>, ts: Option<seq<Token>>)
    ensures Pushed(a, Push(OrOr, Pushed(c, ts))) == Pushed(a + ([OrOr] + c), ts)
  {
    if ts.Some? { assert a + ([OrOr] + (c + ts.value)) == (a + ([OrOr] + c)) + ts.value; }
  }

  lemma {:induction false} LexChain(hosts: seq<Arg>, rest: string)
    requires hosts != [] && forall h | h in hosts :: HostText(h)
    ensures Lex(OrJoin(HostAtoms(hosts)) + rest) == Pushed(ChainTokens(hosts), Lex(rest))
  {
    hide Lex, HostAtom, AtomTokens, OrJoin, HostAtoms, Pushed, HostText, Illegal;
    ChainText(hosts, rest);
    assert hosts[0] in hosts;
    HostTextIsPlain(hosts[0]);
    if |hosts| == 1 {
      LexHostAtom(hosts[0], rest);
    } else {
      var tail := OrJoin(HostAtoms(hosts[1..])) + rest;
      LexHostAtom(hosts[0], " || " + tail);
      LexSign(tail);
      LexChain(hosts[1..], rest);
      PushedSplit(AtomTokens(HostWord, hosts[0]), ChainTokens(hosts[1..]), Lex(rest));
    }
  }

  // ----- parsing it -----

  lemma ParseAtom(word: Token, x: Arg, rest: seq<Token>)
    requires word.HostWord? || word.PrefixWord?
    ensures ParseUnary(AtomTokens(word, x) + rest)
            == if word.HostWord? then Parsed(HostIs(Uncarriage(x)), rest)
               else if HasPrefix(Uncarriage(x), "/") then Parsed(PrefixIs(Uncarriage(x)), rest) else NoParse
  {
    var ts := AtomTokens(word, x) + rest;
    assert ts[0] == word && ts[1] == LPar && ts[2].Quoted? && ts[3] == RPar && ts[4..] == rest;
    hide Uncarriage, ParseOr;
  }

  /** One host parses as an alternative of its own. */
  lemma ParseAlternative(h: Arg, rest: seq<Token>)
    requires HostText(h) && !Starts(rest, AndAnd)
    ensures ParseAnd(AtomTokens(HostWord, h) + rest) == Parsed(HostIs(h), rest)
  {
    HostTextIsPlain(h);
    assert Uncarriage(h) == h;
    hide AtomTokens, Uncarriage;
    ParseAtom(HostWord, h, rest);
    hide ParseUnary;
  }

  lemma ParseMore(a: seq<Token>, e: Expr, b: seq<Token>, f: Expr, rest: seq<Token>)
    requires ParseAnd(a + ([OrOr] + (b + rest))) == Parsed(e, [OrOr] + (b + rest)) && ParseOr(b + rest) == Parsed(f, rest)
    ensures ParseOr((a + ([OrOr] + b)) + rest) == Parsed(Either(e, f), rest)
  {
    var more := [OrOr] + (b + rest);
    assert (a + ([OrOr] + b)) + rest == a + more;
    assert more[1..] == b + rest;
    hide ParseAnd;
  }

  /** The chain of hosts parses to an expression that says "one of them". */
  lemma {:induction false} ParseChain(hosts: seq<Arg>, rest: seq<Token>) returns (e: Expr)
    requires hosts != [] && (forall h | h in hosts :: HostText(h))
    requires !Starts(rest, AndAnd) && !Starts(rest, OrOr)
    ensures ParseOr(ChainTokens(hosts) + rest) == Parsed(e, rest)
    ensures forall host, path :: Means(e, host, path) <==> host in hosts
  {
    var h := hosts[0];
    if |hosts| == 1 {
      ParseAlternative(h, rest);
      hide AtomTokens, ParseAnd;
      e := HostIs(h);
    } else {
      hide AtomTokens, ParseAnd, ParseOr;
      ParseAlternative(h, [OrOr] + (ChainTokens(hosts[1..]) + rest));
      var f := ParseChain(hosts[1..], rest);
      ParseMore(AtomTokens(HostWord, h), HostIs(h), ChainTokens(hosts[1..]), f, rest);
      e := Either(HostIs(h), f);
      assert forall host :: host in hosts <==> host == h || host in hosts[1..];
    }
  }

  /** Both parts of a match rule in one conjunction, if the prefix starts with a slash. */
  lemma ParseBoth(hostTokens: seq<Token>, e: Expr, prefix: Arg, rest: seq<Token>)
    requires ParseUnary(hostTokens + ([AndAnd] + (AtomTokens(PrefixWord, prefix) + rest)))
             == Parsed(e, [AndAnd] + (AtomTokens(PrefixWord, prefix) + rest))
    requires !Starts(rest, AndAnd)
    ensures ParseAnd(hostTokens + ([AndAnd] + (AtomTokens(PrefixWord, prefix) + rest)))
            == if HasPrefix(Uncarriage(prefix), "/") then Parsed(Both(e, PrefixIs(Uncarriage(prefix))), rest) else NoParse
  {
    var more := AtomTokens(PrefixWord, prefix) + rest;
    assert ([AndAnd] + more)[1..] == more;
    ParseAtom(PrefixWord, prefix, rest);
    hide AtomTokens, Uncarriage, ParseUnary;
  }

  /** Nothing after the conjunction, or an alternative to it. */
  lemma ParseWhole(ts: seq<Token>, a: Parsed)
    requires ParseAnd(ts) == a
    ensures a.NoParse? ==> ParseOr(ts) == NoParse
    ensures a.Parsed? && a.rest == [] ==> ParseOr(ts) == a
    ensures a.Parsed? && Starts(a.rest, OrOr) && ParseOr(a.rest[1..]).Parsed? ==>
              ParseOr(ts) == Parsed(Either(a.e, ParseOr(a.rest[1..]).e), ParseOr(a.rest[1..]).rest)
  {
    hide ParseAnd;
  }

  function HostTokens(hosts: seq<Arg>): seq<Token>
    requires hosts != []
  {
    if |hosts| > 1 then [LPar] + (ChainTokens(hosts) + [RPar]) else ChainTokens(hosts)
  }

  lemma ParseParens(inner: seq<Token>, e: Expr, rest: seq<Token>)
    requires ParseOr(inner + ([RPar] + rest)) == Parsed(e, [RPar] + rest)
    ensures ParseUnary(([LPar] + (inner + [RPar])) + rest) == Parsed(e, rest)
  {
    var ts := ([LPar] + (inner + [RPar])) + rest;
    assert ts[0] == LPar && ts[1..] == inner + ([RPar] + rest);
    assert ([RPar] + rest)[1..] == rest;
    hide ParseOr;
  }

  lemma ParseHosts(hosts: seq<Arg>, rest: seq<Token>) returns (e: Expr)
    requires hosts != [] && forall h | h in hosts :: HostText(h)
    ensures ParseUnary(HostTokens(hosts) + rest) == Parsed(e, rest)
    ensures forall host, path :: Means(e, host, path) <==> host in hosts
  {
    if |hosts| == 1 {
      assert hosts[0] in hosts;
      HostTextIsPlain(hosts[0]);
      assert Uncarriage(hosts[0]) == hosts[0];
      hide Uncarriage, AtomTokens, ParseUnary;
      ParseAtom(HostWord, hosts[0], rest);
      e := HostIs(hosts[0]);
      assert ChainTokens(hosts) == AtomTokens(HostWord, hosts[0]);
    } else {
      hide Uncarriage, AtomTokens, ChainTokens, ParseUnary, ParseOr, Means;
      e := ParseChain(hosts, [RPar] + rest);
      ParseParens(ChainTokens(hosts), e, rest);
    }
  }

  lemma HostMatchText(hosts: seq<string>, rest: string)
    ensures HostMatch(hosts) + rest
            == if |hosts| > 1 then "(" + (OrJoin(HostAtoms(hosts)) + (")" + rest)) else OrJoin(HostAtoms(hosts)) + rest
  {
    hide OrJoin, HostAtoms;
  }

  lemma PushedInParens(c: seq<Token>, ts: Option<seq<Token>>)
    ensures Push(LPar, Pushed(c, Push(RPar, ts))) == Pushed([LPar] + (c + [RPar]), ts)
  {
    if ts.Some? { assert [LPar] + (c + ([RPar] + ts.value)) == ([LPar] + (c + [RPar])) + ts.value; }
  }

  lemma PushedHosts(hosts: seq<Arg>, ts: Option<seq<Token>>)
    requires hosts != []
    ensures Pushed(HostTokens(hosts), ts)
            == if |hosts| > 1 then Push(LPar, Pushed(ChainTokens(hosts), Push(RPar, ts))) else Pushed(ChainTokens(hosts), ts)
  {
    hide ChainTokens;
    PushedInParens(ChainTokens(hosts), ts);
  }

  lemma LexHosts(hosts: seq<Arg>, rest: string)
    requires hosts != [] && forall h | h in hosts :: HostText(h)
    ensures Lex(HostMatch(hosts) + rest) == Pushed(HostTokens(hosts), Lex(rest))
  {
    hide *;
    HostMatchText(hosts, rest);
    PushedHosts(hosts, Lex(rest));
    if |hosts| == 1 {
      LexChain(hosts, rest);
    } else {
      LexChain(hosts, ")" + rest);
      LexParens(OrJoin(HostAtoms(hosts)) + (")" + rest));
      LexParens(rest);
    }
  }

  /** The tokens of a match rule, with whatever stands behind the prefix argument's end. */
  lemma RuleLexes(hosts: seq<Arg>, prefix: Arg, rest: string)
    requires hosts != [] && forall h | h in hosts :: HostText(h)
    ensures Lex(HostMatch(hosts) + (" && " + (PrefixAtom(prefix) + rest)))
            == if Illegal(prefix) then None
               else Pushed(HostTokens(hosts) + ([AndAnd] + AtomTokens(PrefixWord, prefix)), Lex(rest))
  {
    hide *;
    LexHosts(hosts, " && " + (PrefixAtom(prefix) + rest));
    LexSign(PrefixAtom(prefix) + rest);
    LexPrefixAtom(prefix, rest);
    PushedRule(HostTokens(hosts), AtomTokens(PrefixWord, prefix), Lex(rest));
  }

  lemma PushedRule(h: seq<Token>, p: seq<Token>, ts: Option<seq<Token>>)
    ensures Pushed(h, Push(AndAnd, Pushed(p, ts))) == Pushed(h + ([AndAnd] + p), ts)
    ensures Pushed(h, Push(AndAnd, None)) == None
  {
    if ts.Some? { assert h + ([AndAnd] + (p + ts.value)) == (h + ([AndAnd] + p)) + ts.value; }
  }

  lemma RuleText(hostMatch: string, prefix: string)
    ensures MatchRule(hostMatch, prefix) == hostMatch + (" && " + (PrefixAtom(prefix) + ""))
  {
    assert PrefixAtom(prefix) + "" == PrefixAtom(prefix);
  }

  /** What a match rule is read as when its prefix has no backtick: less its carriage returns, or not at all. */
  lemma ReadRule(hosts: seq<Arg>, prefix: Arg) returns (e: Expr)
    requires hosts != [] && forall h | h in hosts :: HostText(h)
    ensures Read(MatchRule(HostMatch(hosts), prefix))
            == if Illegal(prefix) || !HasPrefix(Uncarriage(prefix), "/") then None
               else Some(Both(e, PrefixIs(Uncarriage(prefix))))
    ensures forall host, path :: Means(e, host, path) <==> host in hosts
  {
    var atom := AtomTokens(PrefixWord, prefix);
    var ts := HostTokens(hosts) + ([AndAnd] + atom);
    RuleText(HostMatch(hosts), prefix);
    RuleLexes(hosts, prefix, "");
    NoMoreTokens(ts);
    hide Lex, HostMatch, HostTokens, AtomTokens, Uncarriage, ParseOr, ParseAnd, ParseUnary, PrefixAtom, MatchRule,
        Pushed, HostText, Illegal, HasPrefix, Means;
    assert atom + [] == atom;
    e := ParseHosts(hosts, [AndAnd] + atom);
    ParseBoth(HostTokens(hosts), e, prefix, []);
    ParseWhole(ts, ParseAnd(ts));
  }

  /** Without a backtick in it the prefix is read back, less its carriage returns. */
  lemma RuleReads(hosts: seq<Arg>, prefix: Arg)
    requires hosts != [] && forall h | h in hosts :: HostText(h)
    ensures forall host, path ::
              Answers(MatchRule(HostMatch(hosts), prefix), host, path)
              <==> !Illegal(prefix) && HasPrefix(Uncarriage(prefix), "/")
                   && host in hosts && HasPrefix(path, Uncarriage(prefix))
  {
    var e := ReadRule(hosts, prefix);
    hide MatchRule, HostMatch, Read, Uncarriage, Illegal, HostText;
    forall host, path
      ensures Means(Both(e, PrefixIs(Uncarriage(prefix))), host, path)
              <==> host in hosts && HasPrefix(path, Uncarriage(prefix))
    {
    }
  }

  // ----- when the text means what it should -----

  /** No expression tells a path with a backtick from its part before the backtick. */
  lemma {:induction false} BlindBeyondTick(e: Expr, host: string, path: string)
    requires TICK in path
    ensures Means(e, host, path) <==> Means(e, host, path[..IndexOf(path, TICK)])
  {
    match e
    case HostIs(_) =>
    case PrefixIs(p) => ArgsEndAtTick(p, path);
    case Neg(f) => BlindBeyondTick(f, host, path);
    case Both(a, b) => BlindBeyondTick(a, host, path); BlindBeyondTick(b, host, path);
    case Either(a, b) => BlindBeyondTick(a, host, path); BlindBeyondTick(b, host, path);
  }

  lemma ArgsEndAtTick(p: Arg, path: string)
    requires TICK in path
    ensures HasPrefix(path, p) <==> HasPrefix(path[..IndexOf(path, TICK)], p)
  {
    var i := IndexOf(path, TICK);
    assert i < |path| && path[i] == TICK;
    if |p| <= i {
      assert path[..i][..|p|] == path[..|p|];
    } else {
      assert p[i] in p;
      assert |p| <= |path| ==> path[..|p|][i] == path[i];
    }
  }

  ghost predicate MeansHostAndPrefix(text: string, hosts: seq<string>, prefix: string) {
    forall host, path :: Answers(text, host, path) <==> host in hosts && HasPrefix(path, prefix)
  }

  /** A prefix the match text can carry. */
  predicate Carried(prefix: string) { HasPrefix(prefix, "/") && Plain(prefix) }

  /** The text the deployer writes means "one of these hosts, and this prefix" exactly for a prefix it can carry. */
  lemma TextMeansPrefix(hosts: seq<string>, prefix: string)
    requires hosts != [] && forall h | h in hosts :: HostText(h)
    ensures MeansHostAndPrefix(MatchRule(HostMatch(hosts), prefix), hosts, prefix) <==> Carried(prefix)
  {
    if TICK in prefix {
      BacktickChangesMeaning(hosts, prefix);
    } else {
      HostsAreArgs(hosts);
      RuleReads(hosts, prefix);
      PlainIs(prefix);
      hide MatchRule, HostMatch, Answers, Illegal, HostText;
      var text, host, short := MatchRule(HostMatch(hosts), prefix), hosts[0], Uncarriage(prefix);
      assert HasPrefix(prefix, prefix) && HasPrefix(short, short);
      assert Carried(prefix) ==> short == prefix;
      if !Carried(prefix) {
        assert Answers(text, host, prefix) <==> !Illegal(prefix) && HasPrefix(short, "/") && HasPrefix(prefix, short);
        assert Answers(text, host, short) <==> !Illegal(prefix) && HasPrefix(short, "/");
        assert !HasPrefix(short, prefix) || short == prefix;
      }
    }
  }

  lemma HostsAreArgs(hosts: seq<string>)
    requires forall h | h in hosts :: HostText(h)
    ensures forall k | 0 <= k < |hosts| :: TICK !in hosts[k]
  {
    forall k | 0 <= k < |hosts| ensures TICK !in hosts[k] {
      assert hosts[k] in hosts;
      HostTextIsPlain(hosts[k]);
    }
  }

  lemma BacktickChangesMeaning(hosts: seq<string>, prefix: string)
    requires hosts != [] && TICK in prefix
    ensures !MeansHostAndPrefix(MatchRule(HostMatch(hosts), prefix), hosts, prefix)
  {
    hide MatchRule, HostMatch, Read;
    var text, host := MatchRule(HostMatch(hosts), prefix), hosts[0];
    assert HasPrefix(prefix, prefix);
    var cut := prefix[..IndexOf(prefix, TICK)];
    assert IndexOf(prefix, TICK) < |prefix|;
    assert Answers(text, host, prefix) <==> Answers(text, host, cut) by {
      if Read(text).Some? { BlindBeyondTick(Read(text).value, host, prefix); }
    }
    assert !HasPrefix(cut, prefix);
  }

  // ----- what else a backtick can do -----

  /** One backtick in the middle of a prefix, and a letter behind it: no controller reads that. */
  lemma LoneTick(hosts: seq<Arg>)
    requires hosts != [] && forall h | h in hosts :: HostText(h)
    ensures Read(MatchRule(HostMatch(hosts), "/a`b")).None?
  {
    hide Lex, HostMatch, HostTokens, PrefixAtom, RawString, Uncarriage, ParseOr, HostText, Illegal;
    LoneTickText();
    LexHosts(hosts, " && " + PrefixAtom("/a`b"));
    LexSign(PrefixAtom("/a`b"));
    LexPrefixWord("(" + ([TICK] + ("/a" + ([TICK] + "b`)"))));
    LexParens([TICK] + ("/a" + ([TICK] + "b`)")));
    LexTick("/a" + ([TICK] + "b`)"));
    RawStringEnds("/a", "b`)");
  }

  lemma LoneTickText()
    ensures PrefixAtom("/a`b") == "PathPrefix" + ("(" + ([TICK] + ("/a" + ([TICK] + "b`)"))))
    ensures Lex("b`)").None? && TICK !in "/a"
  {
    OtherHead("b`)", "("); OtherHead("b`)", ")"); OtherHead("b`)", "!"); OtherHead("b`)", "&&");
    OtherHead("b`)", "||"); OtherHead("b`)", "Host"); OtherHead("b`)", "PathPrefix");
  }

  /** A prefix that goes on behind its own end. */
  function TwoPart(a: string, b: string): string { a + ("`)||PathPrefix(`" + b) }

  lemma TwoPartText(hostMatch: string, a: string, b: string)
    ensures MatchRule(hostMatch, TwoPart(a, b)) == hostMatch + (" && " + (PrefixAtom(a) + ("||" + (PrefixAtom(b) + ""))))
  {
    assert PrefixAtom(TwoPart(a, b)) == PrefixAtom(a) + ("||" + (PrefixAtom(b) + ""));
  }

  /** Its second part is an alternative to the hosts as well as to its first part. */
  lemma TwoPartReads(hosts: seq<Arg>, a: Arg, b: Arg)
    requires hosts != [] && (forall h | h in hosts :: HostText(h)) && Carried(a) && Carried(b)
    ensures forall host, path ::
              Answers(MatchRule(HostMatch(hosts), TwoPart(a, b)), host, path)
              <==> (host in hosts && HasPrefix(path, a)) || HasPrefix(path, b)
  {
    var e := TwoPartParses(hosts, a, b);
    hide MatchRule, HostMatch, Read, HostText, Carried, TwoPart;
    forall host, path
      ensures Means(Either(Both(e, PrefixIs(a)), PrefixIs(b)), host, path)
              <==> (host in hosts && HasPrefix(path, a)) || HasPrefix(path, b)
    {
      assert Means(Both(e, PrefixIs(a)), host, path) <==> host in hosts && HasPrefix(path, a);
    }
  }

  lemma TwoPartLexes(hosts: seq<Arg>, a: Arg, b: Arg)
    requires hosts != [] && (forall h | h in hosts :: HostText(h)) && !Illegal(a) && !Illegal(b)
    ensures Lex(MatchRule(HostMatch(hosts), TwoPart(a, b)))
            == Some(HostTokens(hosts) + ([AndAnd] + (AtomTokens(PrefixWord, a) + ([OrOr] + AtomTokens(PrefixWord, b)))))
  {
    hide *;
    TwoPartText(HostMatch(hosts), a, b);
    RuleLexes(hosts, a, "||" + (PrefixAtom(b) + ""));
    LexBars(PrefixAtom(b) + "");
    LexPrefixAtom(b, "");
    NoMoreTokens(AtomTokens(PrefixWord, b));
    PushedAlternative(HostTokens(hosts), AtomTokens(PrefixWord, a), AtomTokens(PrefixWord, b));
  }

  lemma PushedAlternative(h: seq<Token>, p: seq<Token>, q: seq<Token>)
    ensures Pushed(h + ([AndAnd] + p), Push(OrOr, Some(q))) == Some(h + ([AndAnd] + (p + ([OrOr] + q))))
  {
    assert (h + ([AndAnd] + p)) + ([OrOr] + q) == h + ([AndAnd] + (p + ([OrOr] + q)));
  }

  lemma TwoPartParses(hosts: seq<Arg>, a: Arg, b: Arg) returns (e: Expr)
    requires hosts != [] && (forall h | h in hosts :: HostText(h)) && Carried(a) && Carried(b)
    ensures Read(MatchRule(HostMatch(hosts), TwoPart(a, b))) == Some(Either(Both(e, PrefixIs(a)), PrefixIs(b)))
    ensures forall host, path :: Means(e, host, path) <==> host in hosts
  {
    TwoPartLexes(hosts, a, b);
    assert Uncarriage(a) == a && Uncarriage(b) == b && HasPrefix(a, "/") && HasPrefix(b, "/");
    hide Lex, HostMatch, HostTokens, AtomTokens, Uncarriage, ParseOr, ParseAnd, ParseUnary, MatchRule, TwoPart,
        HostText, HasPrefix, Means, Carried;
    var p, q := AtomTokens(PrefixWord, a), AtomTokens(PrefixWord, b);
    var ts := HostTokens(hosts) + ([AndAnd] + (p + ([OrOr] + q)));
    e := ParseHosts(hosts, [AndAnd] + (p + ([OrOr] + q)));
    ParseBoth(HostTokens(hosts), e, a, [OrOr] + q);
    assert ([OrOr] + q)[1..] == q;
    ParseLast(b);
    ParseWhole(ts, ParseAnd(ts));
  }

  lemma ParseLast(b: Arg)
    requires HasPrefix(Uncarriage(b), "/")
    ensures ParseOr(AtomTokens(PrefixWord, b)) == Parsed(PrefixIs(Uncarriage(b)), [])
  {
    ParseAtom(PrefixWord, b, []);
    hide AtomTokens, Uncarriage, ParseUnary;
    assert AtomTokens(PrefixWord, b) + [] == AtomTokens(PrefixWord, b);
    assert ParseAnd(AtomTokens(PrefixWord, b)) == Parsed(PrefixIs(Uncarriage(b)), []);
  }
}
