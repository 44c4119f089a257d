/** Whitespace and trimming. */
module Text {

  /** What JavaScript's `trim` removes: white space and line terminators. */
  predicate IsJsSpace(c: char) {
    || '\t' <= c <= '\r' || c == ' ' || c == '\U{00A0}' || c == '\U{1680}' || '\U{2000}' <= c <= '\U{200A}'
    || c in {'\U{2028}', '\U{2029}', '\U{202F}', '\U{205F}', '\U{3000}', '\U{FEFF}'}
  }

  /** What Python's `str.strip` removes. */
  predicate IsPySpace(c: char) {
    || '\t' <= c <= '\r' || '\U{001C}' <= c <= ' ' || c == '\U{0085}' || c == '\U{00A0}' || c == '\U{1680}'
    || '\U{2000}' <= c <= '\U{200A}' || c in {'\U{2028}', '\U{2029}', '\U{202F}', '\U{205F}', '\U{3000}'}
  }

  predicate IsBlank(s: string, isSpace: char -> bool) {
    forall c :: c in s ==> isSpace(c)
  }

  function TrimLeft(s: string, isSpace: char -> bool): string {
    if s != "" && isSpace(s[0]) then TrimLeft(s[1..], isSpace) else s
  }

  function TrimRight(s: string, isSpace: char -> bool): string {
    if s != "" && isSpace(s[|s| - 1]) then TrimRight(s[..|s| - 1], isSpace) else s
  }

  function Trim(s: string, isSpace: char -> bool): string {
    TrimRight(TrimLeft(s, isSpace), isSpace)
  }

  lemma {:induction false} TrimLeftBlank(s: string, isSpace: char -> bool)
    ensures TrimLeft(s, isSpace) == "" <==> IsBlank(s, isSpace)
    ensures TrimLeft(s, isSpace) != "" ==> !isSpace(TrimLeft(s, isSpace)[0])
  {
    if s != "" && isSpace(s[0]) {
      TrimLeftBlank(s[1..], isSpace);
      assert s == [s[0]] + s[1..];
    }
  }

  lemma {:induction false} TrimRightBlank(s: string, isSpace: char -> bool)
    ensures TrimRight(s, isSpace) == "" <==> IsBlank(s, isSpace)
    decreases |s|
  {
    if s != "" && isSpace(s[|s| - 1]) {
      TrimRightBlank(s[..|s| - 1], isSpace);
      assert s == s[..|s| - 1] + [s[|s| - 1]];
    }
  }

  /** Trimming leaves nothing exactly when there was nothing but white space. */
  lemma TrimBlank(s: string, isSpace: char -> bool)
    ensures Trim(s, isSpace) == "" <==> IsBlank(s, isSpace)
  {
    TrimLeftBlank(s, isSpace);
    TrimRightBlank(TrimLeft(s, isSpace), isSpace);
    if TrimLeft(s, isSpace) != "" {
      assert TrimLeft(s, isSpace)[0] in TrimLeft(s, isSpace);
    }
  }

  /** The two languages disagree on six characters. */
  lemma SpacesDiffer(c: char)
    ensures IsJsSpace(c) != IsPySpace(c) <==> '\U{001C}' <= c <= '\U{001F}' || c == '\U{0085}' || c == '\U{FEFF}'
  {}

  lemma {:induction false} TrimLeftIsSuffix(s: string, isSpace: char -> bool) returns (i: nat)
    ensures i <= |s| && TrimLeft(s, isSpace) == s[i..] && forall k :: 0 <= k < i ==> isSpace(s[k])
  {
    if s != "" && isSpace(s[0]) {
      i := TrimLeftIsSuffix(s[1..], isSpace);
      i := i + 1;
    } else {
      i := 0;
    }
  }

  lemma {:induction false} TrimRightIsPrefix(s: string, isSpace: char -> bool) returns (j: nat)
    ensures j <= |s| && TrimRight(s, isSpace) == s[..j] && forall k :: j <= k < |s| ==> isSpace(s[k])
    ensures j > 0 ==> !isSpace(s[j - 1])
    decreases |s|
  {
    if s != "" && isSpace(s[|s| - 1]) {
      j := TrimRightIsPrefix(s[..|s| - 1], isSpace);
    } else {
      j := |s|;
    }
  }

  /** Trimming takes away exactly the white space at both ends. */
  lemma TrimMeaning(s: string, isSpace: char -> bool) returns (i: nat, j: nat)
    ensures i <= j <= |s| && Trim(s, isSpace) == s[i..j]
    ensures forall k :: 0 <= k < i || j <= k < |s| ==> isSpace(s[k])
    ensures i < j ==> !isSpace(s[i]) && !isSpace(s[j - 1])
  {
    i := TrimLeftIsSuffix(s, isSpace);
    j := TrimRightIsPrefix(s[i..], isSpace);
    j := i + j;
    TrimLeftBlank(s, isSpace);
  }
}
