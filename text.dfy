/** The JavaScript string operations the core relies on: `trim`,
    `trimLeft`, `toLowerCase`, `includes` and `startsWith`. */
module Text {

  /** The characters `String.prototype.trim` removes: the ECMAScript
      WhiteSpace and LineTerminator code points. */
  predicate IsWhitespace(c: char) {
    || c == ' ' || c == '\t' || c == '\n' || c == '\r'
    || c == '\U{000B}' || c == '\U{000C}' || c == '\U{00A0}' || c == '\U{FEFF}'
    || c == '\U{1680}' || ('\U{2000}' <= c <= '\U{200A}')
    || c == '\U{2028}' || c == '\U{2029}' || c == '\U{202F}' || c == '\U{205F}' || c == '\U{3000}'
  }

  predicate AllWhitespace(s: string) {
    forall i :: 0 <= i < |s| ==> IsWhitespace(s[i])
  }

  /** `needle` occurs in `hay` starting at index `i`. */
  predicate OccursAt(hay: string, needle: string, i: int) {
    0 <= i <= |hay| - |needle| && hay[i..i + |needle|] == needle
  }

  /** `trimLeft`: the longest all-whitespace prefix is dropped. */
  function TrimStart(s: string): (r: string)
    ensures |r| <= |s| && r == s[|s| - |r|..]
    ensures forall i :: 0 <= i < |s| - |r| ==> IsWhitespace(s[i])
    ensures r == [] || !IsWhitespace(r[0])
  {
    if |s| > 0 && IsWhitespace(s[0]) then TrimStart(s[1..]) else s
  }

  /** The mirror image of `TrimStart`: the longest all-whitespace suffix is dropped. */
  function TrimEnd(s: string): (r: string)
    ensures |r| <= |s| && r == s[..|r|]
    ensures forall i :: |r| <= i < |s| ==> IsWhitespace(s[i])
    ensures r == [] || !IsWhitespace(r[|r| - 1])
  {
    if |s| > 0 && IsWhitespace(s[|s| - 1]) then TrimEnd(s[..|s| - 1]) else s
  }

  /** `trim`: a slice of `s` that neither starts nor ends with whitespace,
      obtained by dropping only whitespace. */
  function Trim(s: string): (r: string)
    ensures exists i :: OccursAt(s, r, i) && AllWhitespace(s[..i]) && AllWhitespace(s[i + |r|..])
    ensures r == [] || (!IsWhitespace(r[0]) && !IsWhitespace(r[|r| - 1]))
  {
    var t := TrimStart(s);
    var r := TrimEnd(t);
    TrimSlice(s, t, r);
    r
  }

  lemma TrimSlice(s: string, t: string, r: string)
    requires |t| <= |s| && t == s[|s| - |t|..]
    requires |r| <= |t| && r == t[..|r|]
    requires t == [] || !IsWhitespace(t[0])
    requires r == [] || !IsWhitespace(r[|r| - 1])
    requires forall i :: 0 <= i < |s| - |t| ==> IsWhitespace(s[i])
    requires forall i :: |r| <= i < |t| ==> IsWhitespace(t[i])
    ensures OccursAt(s, r, |s| - |t|)
    ensures AllWhitespace(s[..|s| - |t|]) && AllWhitespace(s[|s| - |t| + |r|..])
    ensures r == [] || (!IsWhitespace(r[0]) && !IsWhitespace(r[|r| - 1]))
  {
    if r != [] {
      assert r[0] == t[0];
    }
    var k := |s| - |t|;
    assert s[k + |r|..] == t[|r|..];
  }

  /** `!s.trim()`: nothing but whitespace (`BlankIffTrimEmpty`). */
  predicate IsBlank(s: string) {
    AllWhitespace(s)
  }

  /** A string `trim` leaves as it is: non-empty strings neither start nor
      end with whitespace (`TrimmedIffFixedPoint`). */
  predicate IsTrimmed(s: string) {
    s == [] || (!IsWhitespace(s[0]) && !IsWhitespace(s[|s| - 1]))
  }

  lemma {:induction false} BlankIffTrimEmpty(s: string)
    ensures IsBlank(s) <==> Trim(s) == []
  {
    var r := Trim(s);
    var i :| OccursAt(s, r, i) && AllWhitespace(s[..i]) && AllWhitespace(s[i + |r|..]);
    if r == [] {
      WhitespaceJoin(s, i);
    } else {
      assert s[i] == r[0] && !IsWhitespace(s[i]);
    }
  }

  /** A string split into two all-whitespace parts is all whitespace. */
  lemma WhitespaceJoin(s: string, i: int)
    requires 0 <= i <= |s| && AllWhitespace(s[..i]) && AllWhitespace(s[i..])
    ensures AllWhitespace(s)
  {
    forall k | 0 <= k < |s|
      ensures IsWhitespace(s[k])
    {
      if k < i {
        assert s[..i][k] == s[k];
      } else {
        assert s[i..][k - i] == s[k];
      }
    }
  }

  lemma {:induction false} TrimmedIffFixedPoint(s: string)
    ensures IsTrimmed(s) <==> Trim(s) == s
  {
    if IsTrimmed(s) {
      TrimStartKeeps(s);
      TrimEndKeeps(s);
    }
  }

  lemma {:induction false} TrimIdempotent(s: string)
    ensures IsTrimmed(Trim(s)) && Trim(Trim(s)) == Trim(s)
  {
    TrimmedIffFixedPoint(Trim(s));
  }

  /** What a validator sees after trimming a string that is not blank. */
  lemma TrimOfNonBlank(s: string)
    requires !IsBlank(s)
    ensures Trim(s) != [] && IsTrimmed(Trim(s))
  {
    TrimIdempotent(s);
    BlankIffTrimEmpty(s);
  }

  lemma TrimStartKeeps(s: string)
    requires s == [] || !IsWhitespace(s[0])
    ensures TrimStart(s) == s
  {
  }

  lemma TrimEndKeeps(s: string)
    requires s == [] || !IsWhitespace(s[|s| - 1])
    ensures TrimEnd(s) == s
  {
  }

  /** A character outside the Basic Multilingual Plane, which UTF-16 writes
      as a surrogate pair. */
  predicate IsAstral(c: char) {
    c as int >= 0x1_0000
  }

  /** `s.length`: the number of UTF-16 code units, which is what the schema's
      `maxlength` counts.  A character outside the Basic Multilingual Plane
      counts twice. */
  function Utf16Length(s: string): (n: nat)
    ensures |s| <= n <= 2 * |s|
  {
    if s == [] then 0
    else Utf16Length(s[..|s| - 1]) + (if IsAstral(s[|s| - 1]) then 2 else 1)
  }

  /** Without astral characters, the UTF-16 length is the character count. */
  lemma {:induction false} BmpLengthIsCount(s: string)
    requires forall i :: 0 <= i < |s| ==> !IsAstral(s[i])
    ensures Utf16Length(s) == |s|
  {
    if s != [] {
      BmpLengthIsCount(s[..|s| - 1]);
    }
  }

  /** A string of astral characters only (emoji, say) is twice as long in
      UTF-16 as it has characters. */
  lemma {:induction false} AstralLengthIsDouble(s: string)
    requires forall i :: 0 <= i < |s| ==> IsAstral(s[i])
    ensures Utf16Length(s) == 2 * |s|
  {
    if s != [] {
      AstralLengthIsDouble(s[..|s| - 1]);
    }
  }

  /** ASCII lower-casing, the part of `toLowerCase` the keywords need. */
  function LowerChar(c: char): char {
    if 'A' <= c <= 'Z' then (c as int + 32) as char else c
  }

  function ToLower(s: string): (r: string)
    ensures |r| == |s|
    ensures forall i :: 0 <= i < |s| ==> r[i] == LowerChar(s[i])
  {
    seq(|s|, i requires 0 <= i < |s| => LowerChar(s[i]))
  }

  lemma ToLowerIdempotent(s: string)
    ensures ToLower(ToLower(s)) == ToLower(s)
  {
  }

  /** `hay.includes(needle)`, scanning from the left. */
  function Includes(hay: string, needle: string): (b: bool)
    ensures b <==> exists i :: OccursAt(hay, needle, i)
    decreases |hay|
  {
    if needle <= hay then
      assert OccursAt(hay, needle, 0);
      true
    else if |hay| == 0 then
      false
    else
      var b := Includes(hay[1..], needle);
      assert forall i :: OccursAt(hay, needle, i) ==> i > 0 && OccursAt(hay[1..], needle, i - 1);
      if b then
        var i :| OccursAt(hay[1..], needle, i);
        assert OccursAt(hay, needle, i + 1);
        true
      else
        false
  }

  lemma {:induction false} NothingInEmpty(needle: string)
    requires needle != []
    ensures !Includes([], needle)
  {
  }

  /** `s.startsWith(prefix)`. */
  predicate StartsWith(s: string, prefix: string) {
    prefix <= s
  }
}
