/** The string operations that the platform applies to URLs and region names, for ASCII text. */
module Texts {
  /** `rstrip("/")`. */
  function StripSlashes(url: string): string {
    if url != "" && url[|url| - 1] == '/' then StripSlashes(url[..|url| - 1]) else url
  }

  /** `lower()`. */
  function Lower(s: string): string {
    seq(|s|, i requires 0 <= i < |s| => if 'A' <= s[i] <= 'Z' then s[i] - 'A' + 'a' else s[i])
  }

  /** What Python takes for white space among the ASCII characters. */
  const BLANKS := {' ', '\t', '\n', '\r', '\U{0B}', '\U{0C}', '\U{1C}', '\U{1D}', '\U{1E}', '\U{1F}'}

  /** `strip()`. */
  function Strip(s: string): string {
    if s != "" && s[0] in BLANKS then Strip(s[1..])
    else if s != "" && s[|s| - 1] in BLANKS then Strip(s[..|s| - 1])
    else s
  }

  lemma {:induction false} StrippedUrl(url: string)
    ensures var u := StripSlashes(url); u == "" || u[|u| - 1] != '/'
    ensures (url == "" || url[|url| - 1] != '/') <==> StripSlashes(url) == url
    ensures |StripSlashes(url)| <= |url|
  {
    if url != "" && url[|url| - 1] == '/' {
      StrippedUrl(url[..|url| - 1]);
    }
  }

  ghost predicate All(s: string, chars: set<char>) {
    forall i :: 0 <= i < |s| ==> s[i] in chars
  }

  /** Stripping slashes takes slashes off the end, all of them, and nothing else. */
  lemma {:induction false} OnlySlashesGo(url: string)
    ensures |StripSlashes(url)| <= |url| && url[..|StripSlashes(url)|] == StripSlashes(url)
    ensures All(url[|StripSlashes(url)|..], {'/'})
    ensures StripSlashes(url) == "" || StripSlashes(url)[|StripSlashes(url)| - 1] != '/'
  {
    if url != "" && url[|url| - 1] == '/' {
      var rest := url[..|url| - 1];
      OnlySlashesGo(rest);
      var n := |StripSlashes(url)|;
      assert url[n..] == rest[n..] + "/";
    }
  }

  /** Stripping takes blanks off both ends, all of them, and nothing else. */
  lemma {:induction false} OnlyBlanksGo(s: string) returns (before: string, after: string)
    ensures s == before + Strip(s) + after && All(before, BLANKS) && All(after, BLANKS)
    ensures Strip(s) != "" ==> Strip(s)[0] !in BLANKS && Strip(s)[|Strip(s)| - 1] !in BLANKS
    decreases |s|
  {
    if s != "" && s[0] in BLANKS {
      before, after := OnlyBlanksGo(s[1..]);
      before := [s[0]] + before;
    } else if s != "" && s[|s| - 1] in BLANKS {
      before, after := OnlyBlanksGo(s[..|s| - 1]);
      after := after + [s[|s| - 1]];
    } else {
      before, after := "", "";
    }
  }

  /** The same letters, up to the case of the ASCII ones. */
  ghost predicate SameButCase(s: string, t: string) {
    |s| == |t| && forall i :: 0 <= i < |s| ==> SameLetter(s[i], t[i])
  }

  ghost predicate SameLetter(a: char, b: char) {
    || a == b
    || ('A' <= a <= 'Z' && b as int == a as int + 32)
    || ('A' <= b <= 'Z' && a as int == b as int + 32)
  }

  lemma LowerSameIff(s: string, t: string)
    ensures Lower(s) == Lower(t) <==> SameButCase(s, t)
  {
    if Lower(s) == Lower(t) {
      forall i | 0 <= i < |s|
        ensures |s| == |t| && SameLetter(s[i], t[i])
      {
        assert Lower(s)[i] == Lower(t)[i];
      }
    }
  }
}
