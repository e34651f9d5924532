// Text as bytes: searching, splitting at a byte and joining again.
module ByteText {
  newtype Byte = b: int | 0 <= b < 256

  type Bytes = seq<Byte>

  /** The index of the first byte of `any` in s, or |s|. */
  function IndexOfAny(s: Bytes, any: set<Byte>): (i: nat)
    ensures i <= |s|
    ensures forall k | 0 <= k < i :: s[k] !in any
    ensures i < |s| ==> s[i] in any
  {
    if s == [] || s[0] in any then 0 else IndexOfAny(s[1..], any) + 1
  }

  /** The pieces between separators: one more than there are separators. */
  function Split(s: Bytes, sep: Byte): (r: seq<Bytes>)
    ensures r != []
  {
    var i := IndexOfAny(s, {sep});
    if i == |s| then [s] else [s[..i]] + Split(s[i + 1..], sep)
  }

  lemma FirstPiece(piece: Bytes, rest: Bytes, sep: Byte)
    requires sep !in piece
    ensures Split(piece + [sep] + rest, sep) == [piece] + Split(rest, sep)
  {
    var s := piece + [sep] + rest;
    assert s[|piece|] == sep;
    assert forall k | 0 <= k < |piece| :: s[k] == piece[k];
    assert IndexOfAny(s, {sep}) == |piece|;
    assert s[..|piece|] == piece && s[|piece| + 1..] == rest;
  }

  /** Splitting distributes over a separator. */
  lemma {:induction false} SplitConcat(a: Bytes, b: Bytes, sep: Byte)
    ensures Split(a + [sep] + b, sep) == Split(a, sep) + Split(b, sep)
    decreases |a|
  {
    var i := IndexOfAny(a, {sep});
    if i == |a| {
      FirstPiece(a, b, sep);
    } else {
      var piece, rest := a[..i], a[i + 1..];
      assert a == piece + [sep] + rest;
      assert a + [sep] + b == piece + [sep] + (rest + [sep] + b);
      FirstPiece(piece, rest + [sep] + b, sep);
      SplitConcat(rest, b, sep);
      assert [piece] + (Split(rest, sep) + Split(b, sep)) == ([piece] + Split(rest, sep)) + Split(b, sep);
    }
  }

  lemma {:induction false} PiecesHoldNoSeparator(s: Bytes, sep: Byte)
    ensures forall k | 0 <= k < |Split(s, sep)| :: sep !in Split(s, sep)[k]
    decreases |s|
  {
    var i := IndexOfAny(s, {sep});
    if i < |s| {
      PiecesHoldNoSeparator(s[i + 1..], sep);
    }
  }

  function Join(pieces: seq<Bytes>, sep: Byte): Bytes
    requires pieces != []
  {
    if |pieces| == 1 then pieces[0] else Join(pieces[..|pieces| - 1], sep) + [sep] + pieces[|pieces| - 1]
  }

  lemma {:induction false} JoinFirst(piece: Bytes, pieces: seq<Bytes>, sep: Byte)
    requires pieces != []
    ensures Join([piece] + pieces, sep) == piece + [sep] + Join(pieces, sep)
  {
    var all := [piece] + pieces;
    if |pieces| == 1 {
      assert all[..1] == [piece];
    } else {
      assert all[..|all| - 1] == [piece] + pieces[..|pieces| - 1];
      JoinFirst(piece, pieces[..|pieces| - 1], sep);
    }
  }

  lemma SplitStep(s: Bytes, sep: Byte)
    ensures var i := IndexOfAny(s, {sep});
            Split(s, sep) == if i == |s| then [s] else [s[..i]] + Split(s[i + 1..], sep)
  {
    hide IndexOfAny;
  }

  lemma AroundSeparator(s: Bytes, i: nat)
    requires i < |s|
    ensures s == s[..i] + [s[i]] + s[i + 1..]
  {
  }

  /** Joining the pieces of a split gives the text back. */
  lemma {:induction false} JoinUndoesSplit(s: Bytes, sep: Byte)
    ensures Join(Split(s, sep), sep) == s
    decreases |s|
  {
    hide Split, IndexOfAny;
    SplitStep(s, sep);
    var i := IndexOfAny(s, {sep});
    if i < |s| {
      hide Join;
      JoinUndoesSplit(s[i + 1..], sep);
      JoinFirst(s[..i], Split(s[i + 1..], sep), sep);
      AroundSeparator(s, i);
    }
  }

  lemma {:induction false} OnePiece(s: Bytes, sep: Byte)
    requires sep !in s
    ensures Split(s, sep) == [s]
  {
    assert IndexOfAny(s, {sep}) == |s|;
  }

  /** Splitting what was joined gives the pieces back. */
  lemma {:induction false} SplitUndoesJoin(pieces: seq<Bytes>, sep: Byte)
    requires pieces != [] && forall k | 0 <= k < |pieces| :: sep !in pieces[k]
    ensures Split(Join(pieces, sep), sep) == pieces
  {
    var n := |pieces| - 1;
    OnePiece(pieces[n], sep);
    if n > 0 {
      SplitUndoesJoin(pieces[..n], sep);
      SplitConcat(Join(pieces[..n], sep), pieces[n], sep);
    }
  }
}
