/** Signal and parameter names: the blank test and the trimming that the stores apply. */
module Names {

  /** `char.IsWhiteSpace`. */
  predicate IsWhite(c: char) {
    || c == ' ' || '\t' <= c <= '\r' || c == '\U{0085}' || c == '\U{00A0}'
    || c == '\U{1680}' || '\U{2000}' <= c <= '\U{200A}' || c == '\U{2028}'
    || c == '\U{2029}' || c == '\U{202F}' || c == '\U{205F}' || c == '\U{3000}'
  }

  /** `string.IsNullOrWhiteSpace` of a string that is not null. */
  predicate IsBlank(s: string) {
    forall i | 0 <= i < |s| :: IsWhite(s[i])
  }

  predicate IsTrimmed(s: string) {
    s != "" && !IsWhite(s[0]) && !IsWhite(s[|s| - 1])
  }

  function TrimStart(s: string): (t: string)
    ensures |t| <= |s| && t == s[|s| - |t|..] && IsBlank(s[..|s| - |t|])
    ensures t != "" ==> !IsWhite(t[0])
  {
    if s != "" && IsWhite(s[0]) then TrimStart(s[1..]) else s
  }

  function TrimEnd(s: string): (t: string)
    ensures t <= s && IsBlank(s[|t|..])
    ensures t != "" ==> !IsWhite(t[|t| - 1])
  {
    if s != "" && IsWhite(s[|s| - 1]) then
      TrimEnd(s[..|s| - 1])
    else s
  }

  lemma BlankJoin(a: string, b: string)
    ensures IsBlank(a + b) <==> IsBlank(a) && IsBlank(b)
  {
    if IsBlank(a + b) {
      forall i | 0 <= i < |a| ensures IsWhite(a[i]) { assert (a + b)[i] == a[i]; }
      forall i | 0 <= i < |b| ensures IsWhite(b[i]) { assert (a + b)[|a| + i] == b[i]; }
    }
  }

  lemma BlankParts(s: string, u: string, t: string)
    requires |u| <= |s| && u == s[|s| - |u|..] && IsBlank(s[..|s| - |u|])
    requires t <= u && IsBlank(u[|t|..])
    ensures IsBlank(s) <==> IsBlank(t)
  {
    BlankJoin(s[..|s| - |u|], u);
    assert s == s[..|s| - |u|] + u;
    BlankJoin(t, u[|t|..]);
    assert u == t + u[|t|..];
  }

  /** `string.Trim`. */
  function Trim(s: string): (t: string)
    ensures t == "" <==> IsBlank(s)
    ensures t != "" ==> IsTrimmed(t)
  {
    var u := TrimStart(s);
    var t := TrimEnd(u);
    BlankParts(s, u, t);
    assert t != "" ==> t[0] == u[0];
    t
  }

  /** A name is left alone by trimming exactly when it is empty or carries no outer white space. */
  lemma TrimFixed(s: string)
    ensures Trim(s) == s <==> s == "" || IsTrimmed(s)
  {
    if IsTrimmed(s) {
      assert TrimStart(s) == s;
      assert TrimEnd(s) == s;
    }
  }

  /** Trimming takes the outer white space away, and nothing else. */
  lemma TrimTakesOuterWhite(s: string) returns (i: nat, j: nat)
    ensures i <= j <= |s| && Trim(s) == s[i..j] && IsBlank(s[..i]) && IsBlank(s[j..])
  {
    var u := TrimStart(s);
    i := |s| - |u|;
    j := i + |Trim(s)|;
    assert s[i..j] == u[..|Trim(s)|] == Trim(s);
    assert s[j..] == u[|Trim(s)|..];
  }
}
