/** The two JavaScript string behaviours the bot relies on: String.prototype.trim,
    and the rendering of an absent property (`undefined`) when it is concatenated
    to a string. */
module JsText {
  import opened Wrappers

  /** WhiteSpace and LineTerminator of ECMA-262, the characters trim removes
      from both ends: U+0009..U+000D (TAB, LF, VT, FF, CR), the Space_Separator
      category (SP, NBSP, U+1680, U+2000..U+200A, U+202F, U+205F, U+3000),
      LS, PS and ZWNBSP. */
  predicate IsWhiteSpace(c: char) {
    ('\U{0009}' <= c <= '\U{000D}') || c == '\U{0020}' || c == '\U{00A0}' || c == '\U{1680}'
    || ('\U{2000}' <= c <= '\U{200A}') || c == '\U{2028}' || c == '\U{2029}' || c == '\U{202F}'
    || c == '\U{205F}' || c == '\U{3000}' || c == '\U{FEFF}'
  }

  predicate AllWhiteSpace(s: string) {
    forall k :: 0 <= k < |s| ==> IsWhiteSpace(s[k])
  }

  /** s[i..j] is what trim leaves of s: everything outside it is white space,
      and it neither starts nor ends with white space. */
  predicate TrimmedAt(s: string, i: int, j: int) {
    0 <= i <= j <= |s|
    && AllWhiteSpace(s[..i]) && AllWhiteSpace(s[j..])
    && (i < j ==> !IsWhiteSpace(s[i]) && !IsWhiteSpace(s[j - 1]))
  }

  /** No white space at either end: a string trim leaves unchanged. */
  predicate IsTrimmed(s: string) {
    s == [] || (!IsWhiteSpace(s[0]) && !IsWhiteSpace(s[|s| - 1]))
  }

  /** Drop leading white space. */
  function TrimStart(s: string): (r: string)
    ensures |r| <= |s| && r == s[|s| - |r|..]
    ensures AllWhiteSpace(s[..|s| - |r|])
    ensures r != [] ==> !IsWhiteSpace(r[0])
    decreases |s|
  {
    if s != [] && IsWhiteSpace(s[0]) then TrimStart(s[1..]) else s
  }

  /** Drop trailing white space. */
  function TrimEnd(s: string): (r: string)
    ensures |r| <= |s| && r == s[..|r|]
    ensures AllWhiteSpace(s[|r|..])
    ensures r != [] ==> !IsWhiteSpace(r[|r| - 1])
    decreases |s|
  {
    if s != [] && IsWhiteSpace(s[|s| - 1]) then TrimEnd(s[..|s| - 1]) else s
  }

  /** String.prototype.trim. */
  function Trim(s: string): (r: string)
    ensures IsTrimmed(r)
    ensures exists i, j :: TrimmedAt(s, i, j) && r == s[i..j]
  {
    var t := TrimStart(s);
    var r := TrimEnd(t);
    var i := |s| - |t|;
    assert r == s[i..i + |r|];
    assert s[i + |r|..] == t[|r|..];
    assert TrimmedAt(s, i, i + |r|);
    r
  }

  /** Only one substring of s is a trim of it. */
  lemma {:induction false} TrimmedAtUnique(s: string, i: int, j: int, i': int, j': int)
    requires TrimmedAt(s, i, j) && TrimmedAt(s, i', j')
    ensures s[i..j] == s[i'..j']
  {
  }

  /** Trim is characterised by TrimmedAt: any substring that satisfies it is the trim. */
  lemma TrimUnique(s: string, i: int, j: int)
    requires TrimmedAt(s, i, j)
    ensures Trim(s) == s[i..j]
  {
    var i', j' :| TrimmedAt(s, i', j') && Trim(s) == s[i'..j'];
    TrimmedAtUnique(s, i, j, i', j');
  }

  /** A string without white space at its ends is its own trim. */
  lemma TrimOfTrimmed(s: string)
    requires IsTrimmed(s)
    ensures Trim(s) == s
  {
    assert s[..0] == [] && s[|s|..] == [];
    assert TrimmedAt(s, 0, |s|);
    TrimUnique(s, 0, |s|);
  }

  /** Trim removes exactly the white space padding around a trimmed core. */
  lemma TrimPadded(lead: string, core: string, trail: string)
    requires AllWhiteSpace(lead) && AllWhiteSpace(trail) && IsTrimmed(core)
    ensures Trim(lead + core + trail) == core
  {
    var s := lead + core + trail;
    assert s[..|lead|] == lead;
    assert s[|lead| + |core|..] == trail;
    assert s[|lead|..|lead| + |core|] == core;
    TrimUnique(s, |lead|, |lead| + |core|);
  }

  /** Trimming twice is trimming once. */
  lemma TrimIdempotent(s: string)
    ensures Trim(Trim(s)) == Trim(s)
  {
    TrimOfTrimmed(Trim(s));
  }

  /** The string a property value contributes to a concatenation: its text, or
      "undefined" when the property is absent. */
  function Render(v: Option<string>): string {
    match v
    case Some(s) => s
    case None => "undefined"
  }
}
