/**
 Slugs (internal/api/projects.go, internal/scan/slug.go): how one is made from a project name, what is
 accepted, and that everything made is accepted.
 */
module Slugs {
  import opened Text
  import opened Squid
  import opened SquidMeaning

  predicate Alnum(c: char) { 'a' <= c <= 'z' || '0' <= c <= '9' }

  predicate SlugChar(c: char) { Alnum(c) || c == '-' }

  // ----- what is accepted -----

  /** ^[a-z0-9]([a-z0-9-]{1,30}[a-z0-9])?$ */
  predicate SlugShape(s: string) {
    && (|s| == 1 || 3 <= |s| <= 32)
    && Alnum(s[0]) && Alnum(s[|s| - 1])
    && forall k | 0 <= k < |s| :: SlugChar(s[k])
  }

  const RESERVED := {
    "api", "kc", "auth", "oauth2", "admin", "console", "registry",
    "minio", "traefik", "www", "mail", "root", "public", "internal",
    "vibedeploy", "platform", "health", "healthz", "metrics"
  }

  predicate ValidSlug(s: string) { SlugShape(Lower(s)) && Lower(s) !in RESERVED }

  /** Well-shaped and not one of the platform's own names, in whatever case it is written. */
  lemma AcceptedSlugs(s: string)
    ensures ValidSlug(s) <==>
              && SlugShape(Lower(s))
              && Lower(s) !in {"api", "kc", "auth", "oauth2", "admin", "console", "registry", "minio", "traefik", "www",
                               "mail", "root", "public", "internal", "vibedeploy", "platform", "health", "healthz",
                               "metrics"}
  {
  }

  /** An accepted lower-case slug has no underscore, so names built from it determine it. */
  lemma AcceptedSlugsAreText(s: string)
    requires ValidSlug(s) && Lower(s) == s
    ensures SlugText(s) && 1 <= |s| <= 32
  {
  }

  /** The message says 3 to 32 characters; the pattern also takes a single one, and never two. */
  lemma ShortSlugs(c: char, d: char)
    requires Alnum(c)
    ensures SlugShape([c]) && !SlugShape([c, d])
  {
  }

  /** From three characters on: a letter or digit at either end, and hyphens only in between. */
  lemma LongSlugs(c: char, middle: string, d: char)
    requires middle != ""
    ensures SlugShape([c] + middle + [d])
            <==> Alnum(c) && Alnum(d) && |middle| <= 30 && forall k | 0 <= k < |middle| :: Alnum(middle[k]) || middle[k] == '-'
  {
    var s := [c] + middle + [d];
    assert forall k | 0 <= k < |middle| :: s[k + 1] == middle[k];
    assert s[0] == c && s[|s| - 1] == d;
    assert forall k | 0 < k < |s| - 1 :: s[k] == middle[k - 1];
  }

  // ----- how one is made -----

  /** Everything but letters and digits becomes a hyphen; never two in a row, none in front. */
  function Squeeze(s: string): string {
    if s == "" then ""
    else
      var out, c := Squeeze(s[..|s| - 1]), s[|s| - 1];
      if Alnum(c) then out + [c]
      else if out != "" && out[|out| - 1] != '-' then out + "-"
      else out
  }

  /** Slug characters, starting with a letter or digit, no two hyphens in a row. */
  predicate Tidy(s: string) {
    && (forall k | 0 <= k < |s| :: SlugChar(s[k]))
    && (s != "" ==> Alnum(s[0]))
    && (forall k | 0 <= k < |s| - 1 :: s[k] != '-' || s[k + 1] != '-')
  }

  lemma {:induction false} SqueezeIsTidy(s: string)
    ensures Tidy(Squeeze(s))
  {
    if s != "" { SqueezeIsTidy(s[..|s| - 1]); }
  }

  /** The letters and digits of a text, in their order. */
  function Letters(s: string): string {
    if s == "" then ""
    else Letters(s[..|s| - 1]) + if Alnum(s[|s| - 1]) then [s[|s| - 1]] else []
  }

  /** Squeezing and trimming lose no letter or digit. */
  lemma {:induction false} SqueezeKeepsLetters(s: string)
    ensures Letters(Squeeze(s)) == Letters(s)
  {
    if s != "" {
      SqueezeKeepsLetters(s[..|s| - 1]);
      var out := Squeeze(s[..|s| - 1]);
      assert (out + [s[|s| - 1]])[..|out|] == out && (out + "-")[..|out|] == out;
    }
  }

  lemma {:induction false} TrimKeepsLetters(s: string)
    ensures Letters(TrimHyphens(s)) == Letters(s)
    decreases |s|
  {
    if s != "" && s[0] == '-' {
      TrimKeepsLetters(s[1..]);
      LettersOfRest(s);
    } else if s != "" && s[|s| - 1] == '-' {
      TrimKeepsLetters(s[..|s| - 1]);
    }
  }

  lemma {:induction false} LettersOfRest(s: string)
    requires s != "" && !Alnum(s[0])
    ensures Letters(s[1..]) == Letters(s)
  {
    if |s| > 1 {
      LettersOfRest(s[..|s| - 1]);
      assert s[1..][..|s| - 2] == s[..|s| - 1][1..];
    } else {
      assert s[..0] == "" && s[1..] == "";
    }
  }

  /** strings.Trim(s, "-") */
  function TrimHyphens(s: string): string
    decreases |s|
  {
    if s != "" && s[0] == '-' then TrimHyphens(s[1..])
    else if s != "" && s[|s| - 1] == '-' then TrimHyphens(s[..|s| - 1])
    else s
  }

  lemma {:induction false} TrimKeepsTidy(s: string)
    requires Tidy(s)
    ensures Tidy(TrimHyphens(s)) && (TrimHyphens(s) != "" ==> Alnum(TrimHyphens(s)[|TrimHyphens(s)| - 1]))
    decreases |s|
  {
    if s != "" && s[|s| - 1] == '-' { TrimKeepsTidy(s[..|s| - 1]); }
  }

  /** The base of a generated slug: tidy, 3 to 24 characters. */
  method SanitizeForSlug(raw: string) returns (out: string)
    ensures Tidy(out) && 3 <= |out| <= 24
    ensures out == Shortened(TrimHyphens(Squeeze(Lower(raw))))
    ensures var all := TrimHyphens(Squeeze(Lower(raw)));
            if |all| < 3 then out == "app" else out <= all && (|all| <= 24 ==> out == all) && (|all| > 24 ==> |out| == 24)
  {
    var s := Lower(raw);
    var b := "";
    var prevHyphen := false;
    for i := 0 to |s|
      invariant b == Squeeze(s[..i])
      invariant prevHyphen <==> b != "" && b[|b| - 1] == '-'
    {
      assert s[..i + 1][..i] == s[..i];
      if Alnum(s[i]) {
        b := b + [s[i]];
        prevHyphen := false;
      } else if !prevHyphen && |b| > 0 {
        b := b + "-";
        prevHyphen := true;
      }
    }
    assert s[..|s|] == s;
    SqueezeIsTidy(s);
    TrimKeepsTidy(b);
    out := TrimHyphens(b);
    if |out| < 3 {
      out := "app";
    }
    if |out| > 24 {
      out := out[..24];
    }
  }

  function Shortened(s: string): string {
    if |s| < 3 then "app" else if |s| > 24 then s[..24] else s
  }

  const ALPHA := "abcdefghijklmnopqrstuvwxyz0123456789"

  lemma AlphaIsAlnum(k: nat)
    requires k < 36
    ensures |ALPHA| == 36 && Alnum(ALPHA[k])
  {
  }

  /** Random bytes, each overwritten by the letter or digit it picks. */
  method RandomSuffix(b: array<int>) returns (s: string)
    requires forall i | 0 <= i < b.Length :: 0 <= b[i] < 256
    modifies b
    ensures |s| == b.Length
    ensures forall i | 0 <= i < b.Length :: Alnum(s[i])
    ensures forall i | 0 <= i < b.Length :: s[i] == ALPHA[old(b[i]) % 36]
  {
    AlphaIsAlnum(0);
    s := "";
    for i := 0 to b.Length
      invariant |s| == i
      invariant forall k | i <= k < b.Length :: b[k] == old(b[k])
      invariant forall k | 0 <= k < i :: b[k] == ALPHA[old(b[k]) % 36] as int && s[k] == ALPHA[old(b[k]) % 36] && Alnum(s[k])
    {
      AlphaIsAlnum(b[i] % 36);
      var c := ALPHA[b[i] % 36];
      b[i] := c as int;
      s := s + [c];
    }
  }

  lemma LowerTwice(s: string)
    ensures Lower(Lower(s)) == Lower(s)
  {
  }

  /** The base of a generated slug: the name, else the manifest's, else "app". */
  function BaseFor(name: string, manifestName: string): string {
    if name != "" then name else if manifestName != "" then manifestName else "app"
  }

  /** Stem, hyphen, and the four letters or digits the random bytes pick. */
  ghost predicate MadeOf(slug: string, stem: string, bytes: seq<int>)
    requires |bytes| == 4
  {
    && |slug| == |stem| + 5 && slug[..|stem|] == stem && slug[|stem|] == '-'
    && forall i | 0 <= i < 4 :: slug[|stem| + 1 + i] == ALPHA[bytes[i] % 36]
  }

  lemma PartsJoin(stem: string, suffix: string, bytes: seq<int>)
    requires |suffix| == 4 == |bytes| && forall i | 0 <= i < 4 :: suffix[i] == ALPHA[bytes[i] % 36]
    ensures MadeOf(stem + "-" + suffix, stem, bytes)
  {
    var s := stem + "-" + suffix;
    assert s[..|stem|] == stem && s[|stem|] == '-';
    assert forall i | 0 <= i < 4 :: s[|stem| + 1 + i] == suffix[i];
  }

  method GeneratedSlug(base: string, random: array<int>) returns (slug: string)
    requires random.Length == 4 && forall i | 0 <= i < random.Length :: 0 <= random[i] < 256
    modifies random
    ensures ValidSlug(slug) && Lower(slug) == slug
    ensures MadeOf(slug, Shortened(TrimHyphens(Squeeze(Lower(base)))), old(random[..]))
  {
    hide Tidy, ValidSlug, MadeOf;
    ghost var bytes := random[..];
    var stem := SanitizeForSlug(base);
    var suffix := RandomSuffix(random);
    slug := stem + "-" + suffix;
    GeneratedIsValid(stem, suffix);
    PartsJoin(stem, suffix, bytes);
  }

  /** The slug of a new project: the requested one, or a generated one. */
  method NewSlug(requested: string, name: string, manifestName: string, random: array<int>) returns (slug: string)
    requires random.Length == 4 && forall i | 0 <= i < random.Length :: 0 <= random[i] < 256
    modifies random
    ensures Trim(requested) != "" ==> slug == Lower(Trim(requested))
    ensures Trim(requested) == "" ==>
              && ValidSlug(slug) && Lower(slug) == slug
              && MadeOf(slug, Shortened(TrimHyphens(Squeeze(Lower(BaseFor(name, manifestName))))), old(random[..]))
  {
    hide Tidy, Squeeze, TrimHyphens, Shortened, ValidSlug, MadeOf, Trim;
    slug := Lower(Trim(requested));
    if slug == "" {
      var base := Lower(name);
      if base == "" {
        base := manifestName;
      }
      if base == "" {
        base := "app";
      }
      LowerTwice(name);
      slug := GeneratedSlug(base, random);
    }
  }

  /** Any tidy stem with any suffix of four letters or digits is an accepted slug. */
  lemma GeneratedIsValid(stem: string, suffix: string)
    requires Tidy(stem) && 3 <= |stem| <= 24 && |suffix| == 4 && forall i | 0 <= i < 4 :: Alnum(suffix[i])
    ensures ValidSlug(stem + "-" + suffix) && Lower(stem + "-" + suffix) == stem + "-" + suffix
  {
    var s := stem + "-" + suffix;
    assert s[|stem|] == '-' && s[|s| - 1] == suffix[3] && s[0] == stem[0];
    forall k | 0 <= k < |s| ensures SlugChar(s[k]) {
      if k < |stem| { assert s[k] == stem[k]; } else if k > |stem| { assert s[k] == suffix[k - |stem| - 1]; }
    }
    assert Lower(s) == s;
    HyphenIsNotReserved(s, |stem|);
  }

  /** No reserved name has a hyphen in it. */
  lemma HyphenIsNotReserved(s: string, k: nat)
    requires k < |s| && s[k] == '-'
    ensures s !in RESERVED
  {
    assert forall r | r in RESERVED :: '-' !in r;
    assert '-' in s;
  }
}
