/**
 * The trimming the VERSION parsers do before matching: strings.TrimSpace, and strings.Trim
 * with a one-character cutset.
 */
module Text {

  /** unicode.IsSpace: the Latin-1 spaces and the Unicode White_Space characters. */
  predicate IsSpace(c: char)
    ensures IsNewline(c) || IsBlank(c) ==> IsSpace(c)
  {
    || c == '\t' || c == '\n' || c == '\U{000B}' || c == '\U{000C}' || c == '\r' || c == ' '
    || c == '\U{0085}' || c == '\U{00A0}' || c == '\U{1680}'
    || ('\U{2000}' <= c <= '\U{200A}')
    || c == '\U{2028}' || c == '\U{2029}' || c == '\U{202F}' || c == '\U{205F}' || c == '\U{3000}'
  }

  predicate IsNewline(c: char) {
    c == '\n'
  }

  predicate IsBlank(c: char) {
    c == ' '
  }

  /** strings.TrimLeftFunc: the suffix left once the leading run of `cut` characters is gone. */
  function TrimLeft(s: string, cut: char -> bool): (r: string)
    ensures |r| <= |s| && r == s[|s| - |r|..]
    ensures forall i :: 0 <= i < |s| - |r| ==> cut(s[i])
    ensures r != [] ==> !cut(r[0])
  {
    if s != [] && cut(s[0]) then TrimLeft(s[1..], cut) else s
  }

  /** strings.TrimRightFunc: the prefix left once the trailing run of `cut` characters is gone. */
  function TrimRight(s: string, cut: char -> bool): (r: string)
    ensures |r| <= |s| && r == s[..|r|]
    ensures forall i :: |r| <= i < |s| ==> cut(s[i])
    ensures r != [] ==> !cut(r[|r| - 1])
  {
    if s != [] && cut(s[|s| - 1]) then TrimRight(s[..|s| - 1], cut) else s
  }

  /** t is s with a run of `cut` characters taken off each end. */
  ghost predicate Surrounds(s: string, t: string, cut: char -> bool) {
    exists i, j :: 0 <= i <= j <= |s| && t == s[i..j] &&
      (forall k :: 0 <= k < i ==> cut(s[k])) && (forall k :: j <= k < |s| ==> cut(s[k]))
  }

  /** The slice between two runs of `cut` characters is surrounded by them. */
  lemma SurroundsSlice(s: string, cut: char -> bool, i: int, j: int)
    requires 0 <= i <= j <= |s|
    requires forall k :: 0 <= k < i ==> cut(s[k])
    requires forall k :: j <= k < |s| ==> cut(s[k])
    ensures Surrounds(s, s[i..j], cut)
  {
  }

  /** strings.TrimFunc: both ends. */
  function Trim(s: string, cut: char -> bool): (r: string)
    ensures r != [] ==> !cut(r[0]) && !cut(r[|r| - 1])
    ensures Surrounds(s, r, cut)
  {
    TrimBothEnds(s, cut);
    TrimRight(TrimLeft(s, cut), cut)
  }

  lemma TrimBothEnds(s: string, cut: char -> bool)
    ensures var r := TrimRight(TrimLeft(s, cut), cut);
      (r != [] ==> !cut(r[0]) && !cut(r[|r| - 1])) && Surrounds(s, r, cut)
  {
    var left := TrimLeft(s, cut);
    var r := TrimRight(left, cut);
    var i := |s| - |left|;
    var j := i + |r|;
    SliceOfSuffix(s, i, |r|);
    assert r == s[i..j];
    if r != [] {
      assert r[0] == left[0];
    }
    forall k | j <= k < |s| ensures cut(s[k]) {
      assert s[k] == left[k - i];
    }
    SurroundsSlice(s, cut, i, j);
  }

  /** A prefix of a suffix is a middle slice. */
  lemma SliceOfSuffix(s: string, i: int, n: int)
    requires 0 <= i <= |s| && 0 <= n <= |s| - i
    ensures s[i..][..n] == s[i..i + n]
  {
  }

  /** strings.TrimSpace. */
  function TrimSpace(s: string): (r: string)
    ensures r != [] ==> !IsSpace(r[0]) && !IsSpace(r[|r| - 1])
    ensures Surrounds(s, r, IsSpace)
  {
    Trim(s, IsSpace)
  }

  /** Cutting a run of `cut` characters that ends before a kept one leaves the rest. */
  lemma {:induction false} TrimLeftAt(s: string, cut: char -> bool, k: nat)
    requires k <= |s|
    requires forall i :: 0 <= i < k ==> cut(s[i])
    requires k < |s| ==> !cut(s[k])
    ensures TrimLeft(s, cut) == s[k..]
    decreases k
  {
    if k > 0 {
      var rest := s[1..];
      assert cut(s[0]);
      forall i | 0 <= i < k - 1 ensures cut(rest[i]) {
        assert rest[i] == s[i + 1];
      }
      if k - 1 < |rest| {
        assert rest[k - 1] == s[k];
      }
      TrimLeftAt(rest, cut, k - 1);
      assert rest[k - 1..] == s[k..];
    }
  }

  lemma {:induction false} TrimRightAt(s: string, cut: char -> bool, k: nat)
    requires k <= |s|
    requires forall i :: k <= i < |s| ==> cut(s[i])
    requires k > 0 ==> !cut(s[k - 1])
    ensures TrimRight(s, cut) == s[..k]
    decreases |s| - k
  {
    if k < |s| {
      var init := s[..|s| - 1];
      assert cut(s[|s| - 1]);
      forall i | k <= i < |init| ensures cut(init[i]) {
        assert init[i] == s[i];
      }
      if k > 0 {
        assert init[k - 1] == s[k - 1];
      }
      TrimRightAt(init, cut, k);
      assert init[..k] == s[..k];
    }
  }

  /** A string made only of `cut` characters trims to the empty string. */
  lemma TrimAllCut(s: string, cut: char -> bool)
    requires forall i :: 0 <= i < |s| ==> cut(s[i])
    ensures Trim(s, cut) == []
  {
    TrimLeftAt(s, cut, |s|);
  }

  /**
   * Padding on either side made only of `cut` characters is removed, and nothing else, as
   * long as the text itself neither starts nor ends with one.
   */
  lemma TrimPadded(pad1: string, t: string, pad2: string, cut: char -> bool)
    requires forall i :: 0 <= i < |pad1| ==> cut(pad1[i])
    requires forall i :: 0 <= i < |pad2| ==> cut(pad2[i])
    requires t != [] ==> !cut(t[0]) && !cut(t[|t| - 1])
    ensures Trim(pad1 + t + pad2, cut) == t
  {
    var s := pad1 + t + pad2;
    if t == [] {
      assert s == pad1 + pad2;
      forall i | 0 <= i < |s| ensures cut(s[i]) {
        if i < |pad1| { assert s[i] == pad1[i]; } else { assert s[i] == pad2[i - |pad1|]; }
      }
      TrimAllCut(s, cut);
    } else {
      var left := t + pad2;
      assert s == pad1 + left;
      TrimLeftPad(pad1, left, cut);
      TrimRightPad(t, pad2, cut);
    }
  }

  lemma TrimLeftPad(pad: string, t: string, cut: char -> bool)
    requires forall i :: 0 <= i < |pad| ==> cut(pad[i])
    requires t != [] ==> !cut(t[0])
    ensures TrimLeft(pad + t, cut) == t
  {
    var s := pad + t;
    forall i | 0 <= i < |pad| ensures cut(s[i]) {
      assert s[i] == pad[i];
    }
    if t != [] {
      assert s[|pad|] == t[0];
    }
    TrimLeftAt(s, cut, |pad|);
    assert s[|pad|..] == t;
  }

  lemma TrimRightPad(t: string, pad: string, cut: char -> bool)
    requires forall i :: 0 <= i < |pad| ==> cut(pad[i])
    requires t != [] ==> !cut(t[|t| - 1])
    ensures TrimRight(t + pad, cut) == t
  {
    var s := t + pad;
    forall i | |t| <= i < |s| ensures cut(s[i]) {
      assert s[i] == pad[i - |t|];
    }
    if t != [] {
      assert s[|t| - 1] == t[|t| - 1];
    }
    TrimRightAt(s, cut, |t|);
    assert s[..|t|] == t;
  }

  /** Trimming is idempotent. */
  lemma TrimIdempotent(s: string, cut: char -> bool)
    ensures Trim(Trim(s, cut), cut) == Trim(s, cut)
  {
    TrimFixed(Trim(s, cut), cut);
  }

  /** A string that neither starts nor ends with a `cut` character is left as it is. */
  lemma TrimFixed(s: string, cut: char -> bool)
    requires s != [] ==> !cut(s[0]) && !cut(s[|s| - 1])
    ensures Trim(s, cut) == s
  {
    TrimPadded([], s, [], cut);
    assert [] + s + [] == s;
  }

  /** A string that neither starts nor ends with a space is its own TrimSpace. */
  lemma TrimSpaceFixed(s: string)
    requires s != [] ==> !IsSpace(s[0]) && !IsSpace(s[|s| - 1])
    ensures TrimSpace(s) == s
  {
    TrimFixed(s, IsSpace);
  }

  /** The padding Surrounds speaks of, taken apart. */
  lemma Peel(s: string, t: string, cut: char -> bool) returns (pad1: string, pad2: string)
    requires Surrounds(s, t, cut)
    ensures s == pad1 + t + pad2
    ensures forall k :: 0 <= k < |pad1| ==> cut(pad1[k])
    ensures forall k :: 0 <= k < |pad2| ==> cut(pad2[k])
  {
    var i, j :| 0 <= i <= j <= |s| && t == s[i..j] &&
      (forall k :: 0 <= k < i ==> cut(s[k])) && (forall k :: j <= k < |s| ==> cut(s[k]));
    pad1, pad2 := s[..i], s[j..];
    forall k | 0 <= k < |pad1| ensures cut(pad1[k]) {
      assert pad1[k] == s[k];
    }
    forall k | 0 <= k < |pad2| ensures cut(pad2[k]) {
      assert pad2[k] == s[j + k];
    }
    ThreeSlices(s, i, j);
  }

  lemma ThreeSlices(s: string, i: int, j: int)
    requires 0 <= i <= j <= |s|
    ensures s == s[..i] + s[i..j] + s[j..]
  {
    assert s[..j] == s[..i] + s[i..j];
    assert s == s[..j] + s[j..];
  }
}
