/** The few Python string operations the business rules rely on:
    str.isspace, str.strip(), str.split() with no separator,
    str.split(c)[0], str.rsplit(c, 1) and str.lower() on ASCII letters.
    Strings are sequences of characters. */
module Text {
  import opened Common

  /** Python's str.isspace for a single character: the ASCII controls
      \t \n \v \f \r, the separators \x1c-\x1f, the space, and the Unicode
      spaces U+0085, U+00A0, U+1680, U+2000-U+200A, U+2028, U+2029, U+202F,
      U+205F and U+3000. */
  predicate IsSpace(c: char) {
    var n := c as int;
    (9 <= n <= 13) || (28 <= n <= 32) || n == 0x85 || n == 0xA0 || n == 0x1680
    || (0x2000 <= n <= 0x200A) || n == 0x2028 || n == 0x2029 || n == 0x202F
    || n == 0x205F || n == 0x3000
  }

  predicate AllSpace(s: string) {
    forall k :: 0 <= k < |s| ==> IsSpace(s[k])
  }

  predicate NoSpace(s: string) {
    forall k :: 0 <= k < |s| ==> !IsSpace(s[k])
  }

  /** s with its leading whitespace removed. */
  function TrimStart(s: string): (r: string)
    ensures |r| <= |s| && r == s[|s| - |r|..]
    ensures AllSpace(s[..|s| - |r|])
    ensures r != [] ==> !IsSpace(r[0])
  {
    if s != [] && IsSpace(s[0]) then
      var r := TrimStart(s[1..]);
      assert s[..|s| - |r|] == [s[0]] + s[1..][..|s| - 1 - |r|];
      r
    else s
  }

  /** r is s with all leading and all trailing whitespace cut away. */
  ghost predicate StrippedOf(r: string, s: string) {
    (exists i, j :: 0 <= i <= j <= |s| && s[i..j] == r && AllSpace(s[..i]) && AllSpace(s[j..]))
    && (r != [] ==> !IsSpace(r[0]) && !IsSpace(r[|r| - 1]))
  }

  /** str.strip(): whitespace is taken off the front, then off the back, one
      character at a time. */
  function Strip(s: string): (r: string)
    ensures StrippedOf(r, s)
    ensures r == [] <==> AllSpace(s)
  {
    if s != [] && IsSpace(s[0]) then
      var r := Strip(s[1..]);
      StripFront(s, r);
      r
    else if s != [] && IsSpace(s[|s| - 1]) then
      var r := Strip(s[..|s| - 1]);
      StripBack(s, r);
      r
    else
      assert s[0..|s|] == s && s[..0] == [] && s[|s|..] == [];
      s
  }

  /** Cutting a leading space keeps r the stripped form. */
  lemma StripFront(s: string, r: string)
    requires s != [] && IsSpace(s[0])
    requires StrippedOf(r, s[1..]) && (r == [] <==> AllSpace(s[1..]))
    ensures StrippedOf(r, s) && (r == [] <==> AllSpace(s))
  {
    var t := s[1..];
    var i, j :| 0 <= i <= j <= |t| && t[i..j] == r && AllSpace(t[..i]) && AllSpace(t[j..]);
    SlicesCons(s, i, j);
    SpaceCons(s[0], t[..i]);
    assert 0 <= i + 1 <= j + 1 <= |s| && s[i + 1..j + 1] == r && AllSpace(s[..i + 1]) && AllSpace(s[j + 1..]);
    SpaceCons(s[0], t);
  }

  /** Cutting a trailing space keeps r the stripped form. */
  lemma StripBack(s: string, r: string)
    requires s != [] && IsSpace(s[|s| - 1])
    requires StrippedOf(r, s[..|s| - 1]) && (r == [] <==> AllSpace(s[..|s| - 1]))
    ensures StrippedOf(r, s) && (r == [] <==> AllSpace(s))
  {
    var t := s[..|s| - 1];
    var i, j :| 0 <= i <= j <= |t| && t[i..j] == r && AllSpace(t[..i]) && AllSpace(t[j..]);
    SlicesSnoc(s, i, j);
    SpaceSnoc(t[j..], s[|s| - 1]);
    assert 0 <= i <= j <= |s| && s[i..j] == r && AllSpace(s[..i]) && AllSpace(s[j..]);
    SpaceSnoc(t, s[|s| - 1]);
  }

  /** How the slices of s relate to those of s without its first character. */
  lemma SlicesCons(s: string, i: nat, j: nat)
    requires i <= j < |s|
    ensures s == [s[0]] + s[1..]
    ensures s[i + 1..j + 1] == s[1..][i..j]
    ensures s[..i + 1] == [s[0]] + s[1..][..i]
    ensures s[j + 1..] == s[1..][j..]
  {
  }

  /** How the slices of s relate to those of s without its last character. */
  lemma SlicesSnoc(s: string, i: nat, j: nat)
    requires i <= j < |s|
    ensures s == s[..|s| - 1] + [s[|s| - 1]]
    ensures s[i..j] == s[..|s| - 1][i..j]
    ensures s[..i] == s[..|s| - 1][..i]
    ensures s[j..] == s[..|s| - 1][j..] + [s[|s| - 1]]
  {
  }

  lemma SpaceCons(c: char, t: string)
    requires IsSpace(c)
    ensures AllSpace([c] + t) <==> AllSpace(t)
  {
    var u := [c] + t;
    if AllSpace(t) {
      forall k | 0 <= k < |u| ensures IsSpace(u[k]) {
        if k > 0 { assert u[k] == t[k - 1]; }
      }
    }
    if AllSpace(u) {
      forall k | 0 <= k < |t| ensures IsSpace(t[k]) {
        assert t[k] == u[k + 1];
      }
    }
  }

  lemma SpaceSnoc(t: string, c: char)
    requires IsSpace(c)
    ensures AllSpace(t + [c]) <==> AllSpace(t)
  {
    var u := t + [c];
    if AllSpace(t) {
      forall k | 0 <= k < |u| ensures IsSpace(u[k]) {
        if k < |t| { assert u[k] == t[k]; }
      }
    }
    if AllSpace(u) {
      forall k | 0 <= k < |t| ensures IsSpace(t[k]) {
        assert t[k] == u[k];
      }
    }
  }

  /** A string without whitespace at either end is its own strip(). */
  lemma StripUnchanged(s: string)
    requires s != [] ==> !IsSpace(s[0]) && !IsSpace(s[|s| - 1])
    ensures Strip(s) == s
  {
    if s != [] {
      assert !IsSpace(s[0]) && !IsSpace(s[|s| - 1]);
    }
  }

  /** The longest prefix of s that holds no whitespace. */
  function WordAt(s: string): (w: string)
    ensures |w| <= |s| && w == s[..|w|]
    ensures NoSpace(w)
    ensures |w| < |s| ==> IsSpace(s[|w|])
    ensures s != [] && !IsSpace(s[0]) ==> w != []
  {
    if s == [] || IsSpace(s[0]) then [] else [s[0]] + WordAt(s[1..])
  }

  /** str.split() with no separator: the maximal runs of non-whitespace,
      in order; leading, trailing and repeated whitespace yield nothing. */
  function Split(s: string): (words: seq<string>)
    ensures forall k :: 0 <= k < |words| ==> words[k] != [] && NoSpace(words[k])
    decreases |s|
  {
    var t := TrimStart(s);
    if t == [] then []
    else
      var w := WordAt(t);
      var rest := Split(t[|w|..]);
      WordsCons(w, rest);
      [w] + rest
  }

  lemma WordsCons(w: string, rest: seq<string>)
    requires w != [] && NoSpace(w)
    requires forall k :: 0 <= k < |rest| ==> rest[k] != [] && NoSpace(rest[k])
    ensures forall k :: 0 <= k < |[w] + rest| ==> ([w] + rest)[k] != [] && NoSpace(([w] + rest)[k])
  {
    forall k | 0 <= k < |[w] + rest|
      ensures ([w] + rest)[k] != [] && NoSpace(([w] + rest)[k])
    {
      if k > 0 { assert ([w] + rest)[k] == rest[k - 1]; }
    }
  }

  /** Reference count of words: the positions where a non-whitespace
      character follows whitespace or the start of the string. */
  function WordStarts(s: string, afterSpace: bool): nat {
    if s == [] then 0
    else (if afterSpace && !IsSpace(s[0]) then 1 else 0) + WordStarts(s[1..], IsSpace(s[0]))
  }

  lemma {:induction false} WordStartsSkipSpace(s: string)
    ensures WordStarts(s, true) == WordStarts(TrimStart(s), true)
  {
    if s != [] && IsSpace(s[0]) {
      WordStartsSkipSpace(s[1..]);
    }
  }

  lemma {:induction false} WordStartsSkipWord(t: string)
    ensures WordStarts(t, false) == WordStarts(t[|WordAt(t)|..], true)
  {
    if t != [] && !IsSpace(t[0]) {
      WordStartsSkipWord(t[1..]);
      assert t[|WordAt(t)|..] == t[1..][|WordAt(t[1..])|..];
    }
  }

  /** len(s.split()) counts exactly the word starts of s. */
  lemma {:induction false} SplitCountsWordStarts(s: string)
    ensures |Split(s)| == WordStarts(s, true)
    decreases |s|
  {
    var t := TrimStart(s);
    WordStartsSkipSpace(s);
    if t != [] {
      var w := WordAt(t);
      WordStartsSkipWord(t[1..]);
      assert t[1..][|WordAt(t[1..])|..] == t[|w|..];
      SplitCountsWordStarts(t[|w|..]);
    }
  }

  /** str.split() finds no word exactly when the string is all whitespace. */
  lemma {:induction false} SplitEmptyIffAllSpace(s: string)
    ensures Split(s) == [] <==> AllSpace(s)
  {
    var t := TrimStart(s);
    if t == [] {
      assert s[..|s|] == s;
    } else {
      assert t[0] == s[|s| - |t|];
    }
  }

  /** s.split(c)[0]: the part of s before the first occurrence of c, or the
      whole of s when c does not occur. */
  function BeforeFirst(s: string, c: char): (r: string)
    ensures |r| <= |s| && r == s[..|r|]
    ensures c !in r
    ensures |r| < |s| ==> s[|r|] == c
  {
    if s == [] || s[0] == c then [] else [s[0]] + BeforeFirst(s[1..], c)
  }

  /** The position of the last occurrence of c in s: where s.rsplit(c, 1)
      cuts, if anywhere. */
  function LastIndex(s: string, c: char): (i: Option<nat>)
    ensures i.Some? ==> i.value < |s| && s[i.value] == c && c !in s[i.value + 1..]
    ensures i == None <==> c !in s
  {
    if s == [] then None
    else if s[|s| - 1] == c then Some(|s| - 1)
    else
      var init := s[..|s| - 1];
      var r := LastIndex(init, c);
      assert s == init + [s[|s| - 1]];
      assert r.Some? ==> s[r.value + 1..] == init[r.value + 1..] + [s[|s| - 1]];
      r
  }

  /** An occurrence of c with no c after it is the last one. */
  lemma LastIndexAt(s: string, c: char, i: nat)
    requires i < |s| && s[i] == c && c !in s[i + 1..]
    ensures LastIndex(s, c) == Some(i)
  {
    assert s[i] in s;
  }

  /** An ASCII upper-case letter. */
  predicate IsUpper(c: char) {
    'A' <= c <= 'Z'
  }

  /** str.lower() on one character, for the ASCII letters; every other
      character is left as it is. */
  function LowerChar(c: char): (l: char)
    ensures !IsUpper(l)
    ensures !IsUpper(c) ==> l == c
    ensures IsSpace(l) <==> IsSpace(c)
    ensures l == '@' <==> c == '@'
  {
    if IsUpper(c) then (c as int + 32) as char else c
  }

  /** str.lower() on the ASCII letters of s. */
  function Lower(s: string): (r: string)
    ensures |r| == |s|
    ensures forall k :: 0 <= k < |s| ==> r[k] == LowerChar(s[k])
  {
    if s == [] then []
    else
      var rest := Lower(s[1..]);
      assert forall k :: 1 <= k < |s| ==> ([LowerChar(s[0])] + rest)[k] == rest[k - 1];
      [LowerChar(s[0])] + rest
  }
}
