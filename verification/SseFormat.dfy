// The event-stream format as the client reads it (crates/turul-a2a-client/src/sse.rs):
// line endings, lines, blocks, and the events they carry.
module SseFormat {
  import opened Wrappers
  import opened ByteText

  const LF: Byte := 10
  const CR: Byte := 13
  const SPACE: Byte := 32
  const COLON: Byte := 58

  // The field names "data" and "id".
  const DATA: Bytes := [100, 97, 116, 97]
  const ID: Bytes := [105, 100]

  // `data` is the text that is then read as JSON.
  datatype Event = Event(id: Option<Bytes>, data: Bytes)

  lemma Associative<T>(x: seq<T>, y: seq<T>, z: seq<T>)
    ensures (x + y) + z == x + (y + z)
  {
  }

  // ---- Line endings ----

  predicate EndsInCr(s: Bytes) {
    s != [] && s[|s| - 1] == CR
  }

  /** CRLF, CR and LF all become LF. */
  function Normalize(s: Bytes): Bytes {
    if s == [] then []
    else
      var before, b := s[..|s| - 1], s[|s| - 1];
      if b == LF && EndsInCr(before) then Normalize(before)
      else Normalize(before) + [if b == CR then LF else b]
  }

  /** What one more byte adds. */
  function Adds(afterCr: bool, b: Byte): Bytes {
    if b == LF && afterCr then [] else [if b == CR then LF else b]
  }

  lemma NormalizeLast(s: Bytes, b: Byte)
    ensures Normalize(s + [b]) == Normalize(s) + Adds(EndsInCr(s), b)
  {
    assert (s + [b])[..|s|] == s;
  }

  /** What is left of b after a CR: an LF there belongs to that line ending. */
  function AfterCr(afterCr: bool, b: Bytes): Bytes {
    if afterCr && b != [] && b[0] == LF then b[1..] else b
  }

  lemma OneMoreAfterCr(a: Bytes, b: Bytes, last: Byte)
    requires b != []
    ensures AfterCr(EndsInCr(a), b + [last]) == AfterCr(EndsInCr(a), b) + [last]
    ensures EndsInCr(AfterCr(EndsInCr(a), b)) == EndsInCr(a + b)
  {
  }

  lemma NormalizeOneMore(a: Bytes, b: Byte)
    ensures Normalize(a + [b]) == Normalize(a) + Normalize(AfterCr(EndsInCr(a), [b]))
  {
    NormalizeLast(a, b);
    assert [b][..0] == [] && [b][1..] == [];
    assert Normalize([b]) == [if b == CR then LF else b];
  }

  lemma LastOff(b: Bytes)
    requires b != []
    ensures b == b[..|b| - 1] + [b[|b| - 1]]
  {
  }

  lemma {:induction false} NormalizeConcat(a: Bytes, b: Bytes)
    ensures Normalize(a + b) == Normalize(a) + Normalize(AfterCr(EndsInCr(a), b))
  {
    if b == [] {
      assert a + b == a && Normalize(b) == [];
    } else {
      hide *;
      var b0, last := b[..|b| - 1], b[|b| - 1];
      LastOff(b);
      if b0 == [] {
        assert b == [last];
        NormalizeOneMore(a, last);
      } else {
        NormalizeConcat(a, b0);
        NormalizeStep(a, b0, last);
      }
    }
  }

  lemma NormalizeStep(a: Bytes, b: Bytes, last: Byte)
    requires b != [] && Normalize(a + b) == Normalize(a) + Normalize(AfterCr(EndsInCr(a), b))
    ensures Normalize(a + (b + [last])) == Normalize(a) + Normalize(AfterCr(EndsInCr(a), b + [last]))
  {
    hide *;
    var after := AfterCr(EndsInCr(a), b);
    NormalizeLast(a + b, last);
    OneMoreAfterCr(a, b, last);
    NormalizeLast(after, last);
    Associative(a, b, [last]);
    Associative(Normalize(a), Normalize(after), Adds(EndsInCr(after), last));
  }

  // ---- Lines ----

  /** The pieces between LFs: one more than there are LFs. */
  function Lines(s: Bytes): (r: seq<Bytes>)
    ensures r != []
  {
    Split(s, LF)
  }

  /** The lines of raw input as section 9.2.6 of the HTML Living Standard ends them: by CRLF,
      by an LF that follows no CR, or by a CR that precedes no LF. */
  function RawLines(s: Bytes): (r: seq<Bytes>)
    ensures r != []
  {
    var i := IndexOfAny(s, {LF, CR});
    if i == |s| then [s]
    else [s[..i]] + RawLines(if s[i] == CR && i + 1 < |s| && s[i + 1] == LF then s[i + 2..] else s[i + 1..])
  }

  lemma {:induction false} PlainIsNormal(s: Bytes)
    requires CR !in s
    ensures Normalize(s) == s
  {
    if s != [] {
      PlainIsNormal(s[..|s| - 1]);
      assert s == s[..|s| - 1] + [s[|s| - 1]];
    }
  }

  lemma NormalizeTerminator(rest: Bytes)
    requires rest != [] && rest[0] in {LF, CR}
    ensures var skip := if rest[0] == CR && |rest| > 1 && rest[1] == LF then 2 else 1;
            Normalize(rest) == [LF] + Normalize(rest[skip..])
  {
    var first, more := rest[..1], rest[1..];
    assert rest == first + more && first == [rest[0]];
    NormalizeConcat(first, more);
    assert first[..0] == [] && Normalize(first) == [LF];
    hide Normalize;
    if rest[0] == CR && |rest| > 1 && rest[1] == LF {
      assert more[1..] == rest[2..];
    }
  }

  /** The line before a terminator passes normalisation as it is, and the terminator, whichever
      it is, becomes one LF. */
  lemma NormalizeFirstLine(line: Bytes, rest: Bytes)
    requires rest != [] && rest[0] in {LF, CR} && LF !in line && CR !in line
    ensures var skip := if rest[0] == CR && |rest| > 1 && rest[1] == LF then 2 else 1;
            Normalize(line + rest) == line + [LF] + Normalize(rest[skip..])
  {
    hide Normalize;
    NormalizeConcat(line, rest);
    PlainIsNormal(line);
    NormalizeTerminator(rest);
  }

  /** Normalising first and splitting at LF finds the lines of the standard. */
  lemma {:induction false} NormalizedLines(s: Bytes)
    ensures Lines(Normalize(s)) == RawLines(s)
    decreases |s|
  {
    var i := IndexOfAny(s, {LF, CR});
    if i == |s| {
      PlainIsNormal(s);
      assert IndexOfAny(s, {LF}) == |s|;
    } else {
      var skip := if s[i] == CR && i + 1 < |s| && s[i + 1] == LF then 2 else 1;
      assert s == s[..i] + s[i..];
      NormalizeFirstLine(s[..i], s[i..]);
      assert s[i..][skip..] == s[i + skip..];
      NormalizedLines(s[i + skip..]);
      FirstPiece(s[..i], Normalize(s[i + skip..]), LF);
    }
  }

  // ---- Blocks ----

  predicate PairAt(s: Bytes, k: nat) {
    k + 1 < |s| && s[k] == LF && s[k + 1] == LF
  }

  /** The index of the first of two LFs in a row, or |s|. */
  function DoubleLf(s: Bytes): (i: nat)
    ensures i <= |s|
    ensures forall k | 0 <= k < i :: !PairAt(s, k)
    ensures i < |s| ==> PairAt(s, i)
  {
    if |s| < 2 then |s|
    else if s[0] == LF && s[1] == LF then 0
    else
      var i := DoubleLf(s[1..]);
      assert forall k: nat | 0 < k :: PairAt(s, k) == PairAt(s[1..], k - 1);
      i + 1
  }

  /** The complete blocks of s, and what follows the last of them. */
  function Blocks(s: Bytes): seq<Bytes> {
    var i := DoubleLf(s);
    if i == |s| then [] else [s[..i]] + Blocks(s[i + 2..])
  }

  function Rest(s: Bytes): (r: Bytes)
    ensures DoubleLf(r) == |r| && |r| <= |s|
  {
    var i := DoubleLf(s);
    if i == |s| then s else Rest(s[i + 2..])
  }

  lemma DoubleLfStays(a: Bytes, b: Bytes)
    requires DoubleLf(a) < |a|
    ensures DoubleLf(a + b) == DoubleLf(a)
  {
    hide DoubleLf;
    assert forall k: nat | k < |a| - 1 :: PairAt(a + b, k) == PairAt(a, k);
  }

  lemma FirstBlock(a: Bytes, b: Bytes)
    requires DoubleLf(a) < |a|
    ensures var i := DoubleLf(a);
            && Blocks(a + b) == [a[..i]] + Blocks(a[i + 2..] + b)
            && Rest(a + b) == Rest(a[i + 2..] + b)
  {
    hide DoubleLf;
    var i := DoubleLf(a);
    DoubleLfStays(a, b);
    assert (a + b)[i + 2..] == a[i + 2..] + b;
    assert (a + b)[..i] == a[..i];
  }

  lemma {:induction false} RestConcat(a: Bytes, b: Bytes)
    ensures Rest(a + b) == Rest(Rest(a) + b)
    decreases |a|
  {
    if DoubleLf(a) < |a| {
      FirstBlock(a, b);
      RestConcat(a[DoubleLf(a) + 2..], b);
    }
  }

  /** Chunking does not matter: what is complete in a stays, and only the rest of a can be
      completed by b. */
  lemma {:induction false} BlocksConcat(a: Bytes, b: Bytes)
    ensures Blocks(a + b) == Blocks(a) + Blocks(Rest(a) + b)
    decreases |a|
  {
    var i := DoubleLf(a);
    if i < |a| {
      FirstBlock(a, b);
      BlocksConcat(a[i + 2..], b);
      Associative([a[..i]], Blocks(a[i + 2..]), Blocks(Rest(a[i + 2..]) + b));
    }
  }

  // ---- Events ----

  datatype Pending = Pending(id: Option<Bytes>, data: Option<Bytes>)

  const NOTHING: Pending := Pending(None, None)

  /** One line that is not blank: a comment, or a field with its value. */
  function Feed(p: Pending, line: Bytes): Pending {
    if line == [] || line[0] == COLON then p
    else
      var c := IndexOfAny(line, {COLON});
      var field := line[..c];
      var value :=
        if c == |line| then []
        else if c + 1 < |line| && line[c + 1] == SPACE then line[c + 2..]
        else line[c + 1..];
      if field == DATA then p.(data := Some(if p.data.None? then value else p.data.value + [LF] + value))
      else if field == ID then p.(id := Some(value))
      else p
  }

  // What a field with this name and value makes of the pending ones.
  ghost predicate Sets(p: Pending, q: Pending, field: Bytes, value: Bytes) {
    q == if field == [100, 97, 116, 97]
         then Pending(p.id, Some(match p.data case None => value case Some(d) => d + [LF] + value))
         else if field == [105, 100] then Pending(Some(value), p.data)
         else p
  }

  /** How a line that is not blank reads: a comment after a colon; a bare name, with an empty
      value; or a name, a colon and a value, of whose spaces one at the front does not count.
      `data` accumulates line by line, the last `id` counts, and other names do not. */
  lemma LinesRead(p: Pending, field: Bytes, value: Bytes)
    requires COLON !in field
    ensures Feed(p, [COLON] + value) == p
    ensures field != [] ==> Sets(p, Feed(p, field), field, [])
    ensures field != [] ==> Sets(p, Feed(p, field + [COLON, SPACE] + value), field, value)
    ensures field != [] && (value == [] || value[0] != SPACE) ==> Sets(p, Feed(p, field + [COLON] + value), field, value)
  {
    if field != [] {
      hide IndexOfAny;
      var spaced, tight := field + [COLON, SPACE] + value, field + [COLON] + value;
      assert spaced[|field|] == tight[|field|] == COLON;
      assert forall k | 0 <= k < |field| :: spaced[k] == tight[k] == field[k];
      assert IndexOfAny(spaced, {COLON}) == IndexOfAny(tight, {COLON}) == IndexOfAny(field, {COLON}) == |field|;
      assert spaced[..|field|] == tight[..|field|] == field[..|field|] == field;
      assert spaced[|field| + 2..] == value && tight[|field| + 1..] == value;
    }
  }

  function FeedAll(p: Pending, lines: seq<Bytes>): Pending {
    if lines == [] then p else Feed(FeedAll(p, lines[..|lines| - 1]), lines[|lines| - 1])
  }

  /** The event of the pending fields, if there is any data. */
  function Dispatch(p: Pending): seq<Event> {
    if p.data.Some? && p.data.value != [] then [Event(p.id, p.data.value)] else []
  }

  /** The reference: line by line, dispatching at each blank line and at the end. */
  function Interpret(lines: seq<Bytes>, p: Pending): seq<Event> {
    if lines == [] then Dispatch(p)
    else if lines[0] == [] then Dispatch(p) + Interpret(lines[1..], NOTHING)
    else Interpret(lines[1..], Feed(p, lines[0]))
  }

  /** What the block parser makes of one block. */
  function EventsOfBlock(block: Bytes): seq<Event> {
    Dispatch(FeedAll(NOTHING, Lines(block)))
  }

  function EventsOfBlocks(blocks: seq<Bytes>): seq<Event> {
    if blocks == [] then [] else EventsOfBlocks(blocks[..|blocks| - 1]) + EventsOfBlock(blocks[|blocks| - 1])
  }

  lemma {:induction false} EventsConcat(a: seq<Bytes>, b: seq<Bytes>)
    ensures EventsOfBlocks(a + b) == EventsOfBlocks(a) + EventsOfBlocks(b)
  {
    hide EventsOfBlock, Dispatch, FeedAll, Lines;
    if b == [] {
      assert a + b == a;
    } else {
      EventsConcat(a, b[..|b| - 1]);
      assert (a + b)[..|a + b| - 1] == a + b[..|b| - 1];
    }
  }

  /** All the blocks of a stream: the complete ones, and the unterminated last one. */
  function AllBlocks(s: Bytes): seq<Bytes> {
    var rest := Rest(s);
    Blocks(s) + if rest == [] then [] else Blocks(rest + [LF, LF])
  }

  // ---- The block splitter refines the interpreter ----

  /** Lines with no two LFs in a row are blank only at the front or at the end. */
  lemma {:induction false} BlankLinesAreDoubleLfs(s: Bytes)
    requires DoubleLf(s) == |s|
    ensures forall k | 0 < k < |Lines(s)| - 1 :: Lines(s)[k] != []
    ensures |Lines(s)| > 1 && s[|s| - 1] != LF ==> Lines(s)[|Lines(s)| - 1] != []
    decreases |s|
  {
    var i := IndexOfAny(s, {LF});
    if i < |s| {
      var rest := s[i + 1..];
      RestHasNoDouble(s, i + 1);
      BlankLinesAreDoubleLfs(rest);
      assert Lines(s) == [s[..i]] + Lines(rest);
      if rest != [] {
        assert !PairAt(s, i);
        assert rest[0] == s[i + 1] && rest[0] != LF;
        assert Lines(rest)[0] != [];
        assert rest[|rest| - 1] == s[|s| - 1];
      }
    }
  }

  lemma RestHasNoDouble(s: Bytes, n: nat)
    requires DoubleLf(s) == |s| && n <= |s|
    ensures DoubleLf(s[n..]) == |s[n..]|
  {
    hide DoubleLf;
    var t := s[n..];
    assert forall k: nat :: PairAt(t, k) == PairAt(s, n + k);
  }

  lemma PrefixHasNoDouble(s: Bytes, n: nat)
    requires n <= DoubleLf(s)
    ensures DoubleLf(s[..n]) == n
  {
    hide DoubleLf;
    var t := s[..n];
    assert forall k: nat | k < n - 1 :: PairAt(t, k) == PairAt(s, k);
  }

  lemma {:induction false} FeedAllFrom(p: Pending, line: Bytes, lines: seq<Bytes>)
    ensures FeedAll(p, [line] + lines) == FeedAll(Feed(p, line), lines)
  {
    var all := [line] + lines;
    if lines == [] {
      assert all[..0] == [] && all[|all| - 1] == line;
    } else {
      assert all[..|all| - 1] == [line] + lines[..|lines| - 1];
      FeedAllFrom(p, line, lines[..|lines| - 1]);
    }
  }

  /** Lines that are not blank accumulate; then comes a blank line, or the end. */
  lemma {:induction false} InterpretFields(fields: seq<Bytes>, p: Pending, more: seq<Bytes>)
    requires forall k | 0 <= k < |fields| :: fields[k] != []
    ensures Interpret(fields + [[]] + more, p) == Dispatch(FeedAll(p, fields)) + Interpret(more, NOTHING)
    ensures Interpret(fields, p) == Dispatch(FeedAll(p, fields))
  {
    if fields == [] {
      var all := fields + [[]] + more;
      assert all[0] == [] && all[1..] == more;
    } else {
      InterpretFields(fields[1..], Feed(p, fields[0]), more);
      FeedAllFrom(p, fields[0], fields[1..]);
      assert fields == [fields[0]] + fields[1..];
      assert (fields + [[]] + more)[1..] == fields[1..] + [[]] + more;
    }
  }

  // A block as the splitter cuts it: no two LFs in a row, and none at its end.
  ghost predicate IsBlock(a: Bytes) {
    DoubleLf(a) == |a| && (a != [] ==> a[|a| - 1] != LF)
  }

  lemma OneLine(x: Bytes)
    ensures FeedAll(NOTHING, [x]) == Feed(NOTHING, x)
  {
    assert [x][..0] == [];
    assert FeedAll(NOTHING, [x][..0]) == NOTHING;
  }

  lemma InterpretLines(lines: seq<Bytes>, more: seq<Bytes>)
    requires lines != [] && forall k | 0 < k < |lines| :: lines[k] != []
    ensures Interpret(lines + [[]] + more, NOTHING) == Dispatch(FeedAll(NOTHING, lines)) + Interpret(more, NOTHING)
    ensures Interpret(lines, NOTHING) == Dispatch(FeedAll(NOTHING, lines))
  {
    if lines[0] == [] {
      var tail := lines[1..];
      assert lines == [[]] + tail;
      FeedAllFrom(NOTHING, [], tail);
      assert (lines + [[]] + more)[1..] == tail + [[]] + more;
      InterpretFields(tail, NOTHING, more);
    } else {
      InterpretFields(lines, NOTHING, more);
    }
  }

  /** The lines of one block, read one at a time, give what the block parser gives. */
  lemma InterpretBlock(a: Bytes, more: seq<Bytes>)
    requires IsBlock(a)
    ensures Interpret(Lines(a) + [[]] + more, NOTHING) == EventsOfBlock(a) + Interpret(more, NOTHING)
    ensures Interpret(Lines(a), NOTHING) == EventsOfBlock(a)
  {
    BlankLinesAreDoubleLfs(a);
    InterpretLines(Lines(a), more);
  }

  lemma FirstBlockIsABlock(s: Bytes)
    requires DoubleLf(s) < |s|
    ensures IsBlock(s[..DoubleLf(s)])
  {
    PrefixHasNoDouble(s, DoubleLf(s));
  }

  lemma LinesAtDoubleLf(a: Bytes, t: Bytes)
    ensures Lines(a + [LF] + ([LF] + t)) == Lines(a) + [[]] + Lines(t)
  {
    SplitConcat(a, [LF] + t, LF);
    FirstPiece([], t, LF);
    assert [] + [LF] + t == [LF] + t;
  }

  lemma BlocksStep(s: Bytes)
    requires DoubleLf(s) < |s|
    ensures Blocks(s) == [s[..DoubleLf(s)]] + Blocks(s[DoubleLf(s) + 2..])
    ensures Rest(s) == Rest(s[DoubleLf(s) + 2..])
  {
    hide DoubleLf;
  }

  lemma AllBlocksStep(s: Bytes)
    requires DoubleLf(s) < |s|
    ensures AllBlocks(s) == [s[..DoubleLf(s)]] + AllBlocks(s[DoubleLf(s) + 2..])
  {
    hide Blocks, Rest, DoubleLf;
    BlocksStep(s);
    var i, rest := DoubleLf(s), Rest(s);
    Associative([s[..i]], Blocks(s[i + 2..]), if rest == [] then [] else Blocks(rest + [LF, LF]));
  }

  /** The unterminated end of a stream, without its last LF if it has one. */
  function LastBlock(s: Bytes): (a: Bytes)
    ensures |a| <= |s|
  {
    if s != [] && s[|s| - 1] == LF then s[..|s| - 1] else s
  }

  lemma LastBlockIsABlock(s: Bytes)
    requires DoubleLf(s) == |s|
    ensures IsBlock(LastBlock(s))
  {
    PrefixHasNoDouble(s, |LastBlock(s)|);
    if |s| > 1 {
      assert !PairAt(s, |s| - 2);
    }
  }

  lemma FinishedPair(s: Bytes)
    requires s != [] && DoubleLf(s) == |s|
    ensures DoubleLf(s + [LF, LF]) == |LastBlock(s)|
  {
    hide DoubleLf;
    var a, t := LastBlock(s), s + [LF, LF];
    assert forall k: nat | k < |s| - 1 :: PairAt(t, k) == PairAt(s, k);
    assert PairAt(t, |a|) && forall k: nat | |s| - 1 <= k < |a| :: !PairAt(t, k);
  }

  lemma NoBlockIn(s: Bytes)
    requires |s| < 2
    ensures Blocks(s) == []
  {
  }

  /** It is one block of its own. */
  lemma FinishedBlocks(s: Bytes)
    requires s != [] && DoubleLf(s) == |s|
    ensures Blocks(s + [LF, LF]) == [LastBlock(s)]
  {
    hide DoubleLf, Blocks;
    var a, t := LastBlock(s), s + [LF, LF];
    FinishedPair(s);
    BlocksStep(t);
    NoBlockIn(t[|a| + 2..]);
    assert t[..|a|] == a;
  }

  lemma FinishedLines(s: Bytes)
    ensures Lines(s) == Lines(LastBlock(s)) + if LastBlock(s) == s then [] else [[]]
  {
    var a := LastBlock(s);
    if a != s {
      SplitConcat(a, [], LF);
      assert s == a + [LF] + [];
    }
  }

  lemma EventsOfFirst(a: Bytes, more: seq<Bytes>)
    ensures EventsOfBlocks([a] + more) == EventsOfBlock(a) + EventsOfBlocks(more)
  {
    EventsConcat([a], more);
    assert [a][..0] == [];
    assert EventsOfBlocks([a]) == EventsOfBlocks([a][..0]) + EventsOfBlock(a);
  }

  lemma SplitterAtTheEnd(s: Bytes)
    requires s != [] && DoubleLf(s) == |s|
    ensures EventsOfBlocks(AllBlocks(s)) == Interpret(Lines(s), NOTHING)
  {
    var a := LastBlock(s);
    LastBlockIsABlock(s);
    FinishedBlocks(s);
    FinishedLines(s);
    InterpretBlock(a, []);
    EventsOfFirst(a, []);
    assert AllBlocks(s) == [a] + [];
    assert Lines(a) + [[]] + [] == Lines(a) + [[]];
  }

  lemma SplitterAtABlock(a: Bytes, t: Bytes)
    requires IsBlock(a) && EventsOfBlocks(AllBlocks(t)) == Interpret(Lines(t), NOTHING)
    ensures EventsOfBlocks([a] + AllBlocks(t)) == Interpret(Lines(a + [LF] + ([LF] + t)), NOTHING)
  {
    LinesAtDoubleLf(a, t);
    InterpretBlock(a, Lines(t));
    EventsOfFirst(a, AllBlocks(t));
  }

  ghost predicate Refines(s: Bytes) {
    EventsOfBlocks(AllBlocks(s)) == Interpret(Lines(s), NOTHING)
  }

  lemma AroundPair(s: Bytes, i: nat)
    requires PairAt(s, i)
    ensures s == s[..i] + [LF] + ([LF] + s[i + 2..])
  {
  }

  lemma SplitterAtNothing()
    ensures Refines([])
  {
    assert Lines([]) == [[]];
    OneLine([]);
    assert EventsOfBlock([]) == [];
    InterpretBlock([], []);
  }

  lemma SplitterStep(s: Bytes, a: Bytes, t: Bytes)
    requires s == a + [LF] + ([LF] + t) && AllBlocks(s) == [a] + AllBlocks(t)
    requires IsBlock(a) && EventsOfBlocks(AllBlocks(t)) == Interpret(Lines(t), NOTHING)
    ensures EventsOfBlocks(AllBlocks(s)) == Interpret(Lines(s), NOTHING)
  {
    SplitterAtABlock(a, t);
  }

  /** Splitting into blocks at double LFs and parsing each yields, for every input, the
      events of the line-at-a-time reference. */
  lemma {:induction false} SplitterRefinesInterpreter(s: Bytes)
    ensures Refines(s)
    decreases |s|
  {
    hide DoubleLf, Blocks, Rest, AllBlocks, EventsOfBlocks, Interpret, Lines, IsBlock;
    if s == [] {
      SplitterAtNothing();
    } else if DoubleLf(s) < |s| {
      SplitterRefinesInterpreter(s[DoubleLf(s) + 2..]);
      AllBlocksStep(s);
      FirstBlockIsABlock(s);
      AroundPair(s, DoubleLf(s));
      SplitterStep(s, s[..DoubleLf(s)], s[DoubleLf(s) + 2..]);
    } else {
      SplitterAtTheEnd(s);
    }
  }
}
