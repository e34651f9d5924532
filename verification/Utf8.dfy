// UTF-8 as far as the modelled code relies on it: character boundaries and white space.
module Utf8 {
  import opened ByteText

  /** How many bytes the character that starts with b takes; 0 if none starts so. */
  function CharLen(b: Byte): nat {
    if b < 0x80 then 1
    else if 0xC0 <= b < 0xE0 then 2
    else if 0xE0 <= b < 0xF0 then 3
    else if 0xF0 <= b < 0xF8 then 4
    else 0
  }

  predicate Continues(b: Byte) {
    0x80 <= b < 0xC0
  }

  /** A run of whole characters. */
  predicate WellFormed(s: Bytes) {
    s != [] ==>
      var n := CharLen(s[0]);
      && 0 < n <= |s| && (forall k | 0 < k < n :: Continues(s[k]))
      && WellFormed(s[n..])
  }

  /** Every ASCII byte is a character of its own, so a string may be cut before it and after. */
  lemma {:induction false} AsciiIsABoundary(s: Bytes, k: nat)
    requires WellFormed(s) && k < |s| && s[k] < 0x80
    ensures WellFormed(s[k..]) && WellFormed(s[k + 1..])
  {
    var n := CharLen(s[0]);
    if k == 0 {
      assert s[0..] == s;
    } else {
      assert n <= k;
      AsciiIsABoundary(s[n..], k - n);
      assert s[n..][k - n..] == s[k..] && s[n..][k - n + 1..] == s[k + 1..];
    }
  }

  // ---- White space (Unicode White_Space, as str::trim takes it) ----

  predicate AsciiSpace(b: Byte) {
    9 <= b <= 13 || b == 32
  }

  predicate WideSpace(a: Byte, b: Byte, c: Byte) {
    || (a == 0xE1 && b == 0x9A && c == 0x80)
    || (a == 0xE2 && b == 0x80 && (0x80 <= c <= 0x8A || c == 0xA8 || c == 0xA9 || c == 0xAF))
    || (a == 0xE2 && b == 0x81 && c == 0x9F)
    || (a == 0xE3 && b == 0x80 && c == 0x80)
  }

  /** The length of the white-space character at the front of s, or 0. */
  function SpaceAtFront(s: Bytes): (n: nat)
    ensures n <= |s|
  {
    if |s| >= 1 && AsciiSpace(s[0]) then 1
    else if |s| >= 2 && s[0] == 0xC2 && (s[1] == 0x85 || s[1] == 0xA0) then 2
    else if |s| >= 3 && WideSpace(s[0], s[1], s[2]) then 3
    else 0
  }

  function SpaceAtEnd(s: Bytes): (n: nat)
    ensures n <= |s|
  {
    var m := |s|;
    if m >= 1 && AsciiSpace(s[m - 1]) then 1
    else if m >= 2 && s[m - 2] == 0xC2 && (s[m - 1] == 0x85 || s[m - 1] == 0xA0) then 2
    else if m >= 3 && WideSpace(s[m - 3], s[m - 2], s[m - 1]) then 3
    else 0
  }

  function TrimFront(s: Bytes): (r: Bytes)
    ensures |r| <= |s| && SpaceAtFront(r) == 0
    ensures r == s[|s| - |r|..]
  {
    if SpaceAtFront(s) == 0 then s else TrimFront(s[SpaceAtFront(s)..])
  }

  function TrimEnd(s: Bytes): (r: Bytes)
    ensures |r| <= |s| && SpaceAtEnd(r) == 0
    ensures r == s[..|r|]
  {
    if SpaceAtEnd(s) == 0 then s else TrimEnd(s[..|s| - SpaceAtEnd(s)])
  }

  function Trim(s: Bytes): Bytes {
    TrimEnd(TrimFront(s))
  }

  predicate Trimmed(s: Bytes) {
    SpaceAtFront(s) == 0 && SpaceAtEnd(s) == 0
  }

  lemma FrontOfPrefix(s: Bytes, n: nat)
    requires n <= |s| && SpaceAtFront(s) == 0
    ensures SpaceAtFront(s[..n]) == 0
  {
    var t := s[..n];
    assert forall k | 0 <= k < n :: t[k] == s[k];
  }

  lemma SliceOfSlice(s: Bytes, i: nat, n: nat)
    requires i <= |s| && n <= |s| - i
    ensures s[i..][..n] == s[i..i + n]
  {
  }

  /** A trimmed text has no white space at either end, and is a stretch of the original. */
  lemma TrimIsTrimmed(s: Bytes)
    ensures Trimmed(Trim(s))
    ensures exists i, j :: 0 <= i <= j <= |s| && Trim(s) == s[i..j]
  {
    hide TrimFront, TrimEnd, SpaceAtFront, SpaceAtEnd;
    var f := TrimFront(s);
    var t := TrimEnd(f);
    FrontOfPrefix(f, |t|);
    SliceOfSlice(s, |s| - |f|, |t|);
  }

  lemma TrimOfTrimmed(s: Bytes)
    requires Trimmed(s)
    ensures Trim(s) == s
  {
  }

  /** White space around a text that has none at its ends goes away, and nothing else. */
  lemma {:induction false} TrimPadded(left: Bytes, s: Bytes, right: Bytes)
    requires Trimmed(s) && s != []
    requires forall k | 0 <= k < |left| :: AsciiSpace(left[k])
    requires forall k | 0 <= k < |right| :: AsciiSpace(right[k])
    ensures Trim(left + s + right) == s
    decreases |left|
  {
    var all := left + s + right;
    if left == [] {
      assert all == s + right;
      FrontOfPadded(s, right);
      TrimRight(s, right);
    } else {
      assert all[1..] == left[1..] + s + right;
      assert all[0] == left[0];
      TrimPadded(left[1..], s, right);
    }
  }

  lemma {:induction false} TrimBlanks(s: Bytes)
    requires forall k | 0 <= k < |s| :: AsciiSpace(s[k])
    ensures Trim(s) == []
  {
    if s != [] {
      assert SpaceAtFront(s) == 1;
      TrimBlanks(s[1..]);
    }
  }

  lemma FrontOfPadded(s: Bytes, right: Bytes)
    requires s != [] && SpaceAtFront(s) == 0 && SpaceAtEnd(s) == 0
    requires forall k | 0 <= k < |right| :: AsciiSpace(right[k])
    ensures SpaceAtFront(s + right) == 0
  {
    var all := s + right;
    assert forall k | 0 <= k < |s| :: all[k] == s[k];
    assert forall k | 0 <= k < |right| :: all[|s| + k] == right[k];
  }

  lemma {:induction false} TrimRight(s: Bytes, right: Bytes)
    requires s != [] && SpaceAtEnd(s) == 0
    requires forall k | 0 <= k < |right| :: AsciiSpace(right[k])
    ensures TrimEnd(s + right) == s
  {
    if right == [] {
      assert s + right == s;
    } else {
      var all := s + right;
      assert all[|all| - 1] == right[|right| - 1];
      assert all[..|all| - 1] == s + right[..|right| - 1];
      TrimRight(s, right[..|right| - 1]);
    }
  }
}
