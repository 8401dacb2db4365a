/** The string functions of the sources' language that the models share. */
module JsStrings {
  predicate IsWhite(c: char) {
    || '\t' <= c <= '\r' || c == ' '
    || c in {'\U{A0}', '\U{FEFF}', '\U{1680}', '\U{2028}', '\U{2029}', '\U{202F}', '\U{205F}', '\U{3000}'}
    || '\U{2000}' <= c <= '\U{200A}'
  }

  function TrimStart(s: string): string {
    if s != "" && IsWhite(s[0]) then TrimStart(s[1..]) else s
  }

  function TrimEnd(s: string): string {
    if s != "" && IsWhite(s[|s| - 1]) then TrimEnd(s[..|s| - 1]) else s
  }

  function Trim(s: string): string {
    TrimEnd(TrimStart(s))
  }

  predicate AllWhite(s: string) {
    forall k :: 0 <= k < |s| ==> IsWhite(s[k])
  }

  lemma {:induction false} TrimStartCuts(s: string) returns (k: nat)
    ensures k <= |s| && TrimStart(s) == s[k..] && AllWhite(s[..k])
    ensures TrimStart(s) != "" ==> !IsWhite(TrimStart(s)[0])
  {
    k := 0;
    if s != "" && IsWhite(s[0]) {
      k := TrimStartCuts(s[1..]);
      assert s[1..][k..] == s[k + 1..] && s[..k + 1] == [s[0]] + s[1..][..k];
      k := k + 1;
    }
  }

  lemma {:induction false} TrimEndCuts(s: string) returns (k: nat)
    ensures k <= |s| && TrimEnd(s) == s[..k] && AllWhite(s[k..])
    ensures TrimEnd(s) != "" ==> !IsWhite(TrimEnd(s)[|TrimEnd(s)| - 1])
  {
    k := |s|;
    if s != "" && IsWhite(s[|s| - 1]) {
      k := TrimEndCuts(s[..|s| - 1]);
      assert s[..|s| - 1][..k] == s[..k] && s[k..] == s[..|s| - 1][k..] + [s[|s| - 1]];
    }
  }

  /** Trimming takes off white space alone, and all of it at both ends. */
  lemma TrimIsExact(s: string) returns (before: string, after: string)
    ensures s == before + Trim(s) + after && AllWhite(before) && AllWhite(after)
    ensures Trim(s) != "" ==> !IsWhite(Trim(s)[0]) && !IsWhite(Trim(s)[|Trim(s)| - 1])
  {
    var start := TrimStart(s);
    var i := TrimStartCuts(s);
    var j := TrimEndCuts(start);
    before, after := s[..i], start[j..];
  }

  lemma IncludesIff(s: string, part: string)
    ensures Includes(s, part) <==> exists before, after :: s == before + part + after
  {
    if Includes(s, part) {
      var k :| 0 <= k <= |s| && part <= s[k..];
      assert s == s[..k] + part + s[k + |part|..];
    }
    if exists before, after :: s == before + part + after {
      var before, after :| s == before + part + after;
      assert part <= s[|before|..];
    }
  }

  /** `String.prototype.includes`. */
  predicate Includes(s: string, part: string) {
    exists k :: 0 <= k <= |s| && part <= s[k..]
  }
}
