// The incremental decoder, the block parser and the pull loop of the client, against the
// line-at-a-time reference of SseFormat.
module SseClient {
  import opened Wrappers
  import opened ByteText
  import opened SseFormat

  // ---- SseDecoder ----

  class SseDecoder {
    var buf: Bytes
    var afterCr: bool
    // All that was pushed, and the blocks already handed out.
    ghost var input: Bytes
    ghost var taken: seq<Bytes>
    ghost var finished: bool

    constructor ()
      ensures Valid() && !finished && input == [] && taken == [] && buf == []
    {
      buf, afterCr, input, taken, finished := [], false, [], [], false;
    }

    /** However pushes and takes were interleaved, what has come out and what is still to
        come out are the blocks of the whole input. */
    ghost predicate Valid()
      reads this
    {
      && afterCr == EndsInCr(input)
      && (!finished ==> taken + Blocks(buf) == Blocks(Normalize(input)) && Rest(buf) == Rest(Normalize(input)))
    }

    method Push(chunk: Bytes)
      requires Valid() && !finished
      modifies this
      ensures Valid() && !finished && input == old(input) + chunk && taken == old(taken)
    {
      hide Blocks, Rest, Normalize;
      ghost var news: Bytes := [];
      ghost var seen := input;
      for i := 0 to |chunk|
        invariant taken == old(taken) && !finished && input == old(input)
        invariant seen == input + chunk[..i] && afterCr == EndsInCr(seen)
        invariant Normalize(seen) == Normalize(input) + news && buf == old(buf) + news
      {
        var b := chunk[i];
        NormalizeNext(seen, b);
        ghost var more := if b == LF && afterCr then [] else [if b == CR then LF else b];
        Append(Normalize(input), news, more);
        Append(old(buf), news, more);
        Append(input, chunk[..i], [b]);
        assert chunk[..i + 1] == chunk[..i] + [b];
        seen, news := seen + [b], news + more;
        var wasCr := afterCr;
        afterCr := false;
        if b == LF && wasCr {
        } else if b == CR {
          buf := buf + [LF];
          afterCr := true;
        } else {
          buf := buf + [b];
        }
      }
      assert chunk[..|chunk|] == chunk;
      BlocksGrow(Normalize(input), old(buf), taken, news);
      input := input + chunk;
    }

    /** The next complete block, if there is one. */
    method NextBlock() returns (block: Option<Bytes>)
      requires Valid()
      modifies this
      ensures Valid() && finished == old(finished) && input == old(input)
      ensures match block
              case None => buf == old(buf) && taken == old(taken) && Blocks(buf) == []
              case Some(b) => taken == old(taken) + [b] && |buf| < |old(buf)| && [b] + Blocks(buf) == Blocks(old(buf))
      ensures taken + Blocks(buf) == old(taken + Blocks(buf)) && Rest(buf) == Rest(old(buf))
    {
      var end := 0;
      while end + 1 < |buf| && !(buf[end] == LF && buf[end + 1] == LF)
        invariant 0 <= end && (end <= |buf| - 1 || end == 0)
        invariant forall k: nat | k < end :: !PairAt(buf, k)
      {
        end := end + 1;
      }
      if end + 1 >= |buf| {
        assert forall k: nat :: !PairAt(buf, k);
        return None;
      }
      assert PairAt(buf, end) && DoubleLf(buf) == end;
      var b := buf[..end];
      Associative(taken, [b], Blocks(buf[end + 2..]));
      buf := buf[end + 2..];
      taken := taken + [b];
      return Some(b);
    }

    /** On a drained buffer, the unterminated last block comes out next. With complete blocks
        still buffered and nothing after them, one empty block comes out besides. */
    method Finish()
      requires Valid() && !finished
      modifies this
      ensures Valid() && finished && input == old(input) && taken == old(taken)
      ensures taken + Blocks(buf) ==
                AllBlocks(Normalize(input)) + if Blocks(old(buf)) != [] && Rest(old(buf)) == [] then [[]] else []
    {
      BlocksConcat(buf, [LF, LF]);
      TwoLfs();
      Associative(taken, Blocks(buf), Blocks(Rest(buf) + [LF, LF]));
      if buf != [] {
        buf := buf + [LF, LF];
      }
      finished := true;
    }
  }

  lemma NormalizeNext(s: Bytes, b: Byte)
    ensures EndsInCr(s + [b]) == (b == CR)
    ensures Normalize(s + [b]) == Normalize(s) + if b == LF && EndsInCr(s) then [] else [if b == CR then LF else b]
  {
    assert (s + [b])[..|s|] == s;
  }

  lemma Append(a: Bytes, b: Bytes, c: Bytes)
    ensures a + (b + c) == (a + b) + c && a + [] == a
  {
  }

  lemma TwoLfs()
    ensures Blocks([LF, LF]) == [[]]
  {
    var s: Bytes := [LF, LF];
    assert PairAt(s, 0);
    assert s[..0] == [] && s[2..] == [];
    assert Blocks(s[2..]) == [];
  }

  lemma BlocksGrow(n: Bytes, buf: Bytes, taken: seq<Bytes>, news: Bytes)
    requires taken + Blocks(buf) == Blocks(n) && Rest(buf) == Rest(n)
    ensures taken + Blocks(buf + news) == Blocks(n + news) && Rest(buf + news) == Rest(n + news)
  {
    BlocksConcat(n, news);
    BlocksConcat(buf, news);
    RestConcat(n, news);
    RestConcat(buf, news);
    Associative(taken, Blocks(buf), Blocks(Rest(buf) + news));
  }

  // ---- parse_sse_event ----

  method ParseSseEvent(block: Bytes) returns (event: Option<Event>)
    ensures EventsOfBlock(block) == if event.Some? then [event.value] else []
  {
    var id: Option<Bytes> := None;
    var data: Option<Bytes> := None;
    var lines := Lines(block);
    for i := 0 to |lines|
      invariant Pending(id, data) == FeedAll(NOTHING, lines[..i])
    {
      assert lines[..i + 1][..i] == lines[..i];
      var line := lines[i];
      if line == [] || line[0] == COLON {
        continue;
      }
      var c := IndexOfAny(line, {COLON});
      var field, value := line, [];
      if c < |line| {
        field, value := line[..c], line[c + 1..];
        if value != [] && value[0] == SPACE {
          value := value[1..];
        }
      }
      if field == DATA {
        match data
        case Some(d) => data := Some(d + [LF] + value);
        case None => data := Some(value);
      } else if field == ID {
        id := Some(value);
      }
    }
    assert lines[..|lines|] == lines;
    return if data.Some? && data.value != [] then Some(Event(id, data.value)) else None;
  }

  // ---- sse_events: the pull loop ----

  // One step of the body: a chunk, or an error of the transport.
  datatype Read = Chunk(bytes: Bytes) | Broken(error: nat)

  datatype Item = Delivered(event: Event) | Failure(error: nat)

  function BytesOf(body: seq<Read>): Bytes {
    if body == [] then []
    else
      var last := body[|body| - 1];
      BytesOf(body[..|body| - 1]) + if last.Chunk? then last.bytes else []
  }

  function ErrorsIn(body: seq<Read>): seq<nat> {
    if body == [] then []
    else
      var last := body[|body| - 1];
      ErrorsIn(body[..|body| - 1]) + if last.Broken? then [last.error] else []
  }

  function EventsOf(items: seq<Item>): seq<Event> {
    if items == [] then []
    else
      var last := items[|items| - 1];
      EventsOf(items[..|items| - 1]) + if last.Delivered? then [last.event] else []
  }

  function FailuresOf(items: seq<Item>): seq<nat> {
    if items == [] then []
    else
      var last := items[|items| - 1];
      FailuresOf(items[..|items| - 1]) + if last.Failure? then [last.error] else []
  }

  lemma OneMoreRead(past: seq<Read>, r: Read)
    ensures BytesOf(past + [r]) == BytesOf(past) + if r.Chunk? then r.bytes else []
    ensures ErrorsIn(past + [r]) == ErrorsIn(past) + if r.Broken? then [r.error] else []
  {
    assert (past + [r])[..|past|] == past;
  }

  lemma OneMoreItem(items: seq<Item>, x: Item)
    ensures EventsOf(items + [x]) == EventsOf(items) + if x.Delivered? then [x.event] else []
    ensures FailuresOf(items + [x]) == FailuresOf(items) + if x.Failure? then [x.error] else []
  {
    assert (items + [x])[..|items|] == items;
  }

  lemma OneMoreBlock(blocks: seq<Bytes>, b: Bytes)
    ensures EventsOfBlocks(blocks + [b]) == EventsOfBlocks(blocks) + EventsOfBlock(b)
  {
    assert (blocks + [b])[..|blocks|] == blocks;
  }

  /** The reference for a whole stream of bytes. */
  function Reference(s: Bytes): seq<Event> {
    Interpret(RawLines(s), NOTHING)
  }

  lemma BlocksOfAllIsReference(s: Bytes)
    ensures EventsOfBlocks(AllBlocks(Normalize(s))) == Reference(s)
  {
    SplitterRefinesInterpreter(Normalize(s));
    NormalizedLines(s);
  }

  class EventStream {
    const decoder: SseDecoder
    var body: seq<Read>
    var ended: bool
    ghost var past: seq<Read>
    ghost var items: seq<Item>

    constructor (body: seq<Read>)
      ensures Valid() && fresh(decoder) && this.body == body && past == [] && items == [] && !ended
    {
      decoder := new SseDecoder();
      this.body, ended, past, items := body, false, [], [];
    }

    ghost predicate Valid()
      reads this, decoder
    {
      && decoder.Valid() && decoder.finished == ended && decoder.input == BytesOf(past)
      && EventsOf(items) == EventsOfBlocks(decoder.taken) && FailuresOf(items) == ErrorsIn(past)
      && (ended ==> body == [] && decoder.taken + Blocks(decoder.buf) == AllBlocks(Normalize(BytesOf(past))))
    }

    // The measure of the loop, and of pulling again and again.
    twostate predicate Closer()
      reads this, decoder
    {
      || |body| < |old(body)|
      || (|body| == |old(body)| && ended && !old(ended))
      || (|body| == |old(body)| && ended == old(ended) && |decoder.buf| < |old(decoder.buf)|)
    }

    // One buffered block, if there is one: with its event, or as a keep-alive without.
    method TakeBlock() returns (took: bool, event: Option<Event>)
      requires Valid()
      modifies this`items, decoder
      ensures Valid() && (if took then |decoder.buf| < |old(decoder.buf)| else Blocks(decoder.buf) == [])
      ensures event.Some? ==> took
      ensures if event.Some? then items == old(items) + [Delivered(event.value)] else items == old(items)
      ensures !took ==> decoder.buf == old(decoder.buf)
    {
      hide Blocks, Rest, Normalize, EventsOfBlocks, EventsOf, FailuresOf, BytesOf, ErrorsIn, AllBlocks, Reference;
      ghost var before := decoder.taken;
      var block := decoder.NextBlock();
      if block.None? {
        return false, None;
      }
      OneMoreBlock(before, block.value);
      event := ParseSseEvent(block.value);
      if event.Some? {
        OneMoreItem(items, Delivered(event.value));
        items := items + [Delivered(event.value)];
      }
      return true, event;
    }

    // One read of the body, on a drained buffer.
    method Pull() returns (failure: Option<nat>)
      requires Valid() && !ended && body != [] && Blocks(decoder.buf) == []
      modifies this, decoder
      ensures Valid() && !ended && past + body == old(past + body) && |body| < |old(body)|
      ensures match failure
              case None => items == old(items)
              case Some(e) =>
                && items == old(items) + [Failure(e)] && past != [] && past[|past| - 1] == Broken(e)
                && EventsOf(items) == EventsOfBlocks(Blocks(Normalize(BytesOf(past))))
    {
      hide Blocks, Rest, Normalize, EventsOfBlocks, EventsOf, FailuresOf, BytesOf, ErrorsIn, AllBlocks, Reference;
      var read := body[0];
      OneMoreRead(past, read);
      past, body := past + [read], body[1..];
      match read
      case Chunk(bytes) =>
        decoder.Push(bytes);
        return None;
      case Broken(error) =>
        OneMoreItem(items, Failure(error));
        items := items + [Failure(error)];
        assert decoder.taken + [] == decoder.taken;
        return Some(error);
    }

    /** The next item. It ends for good only when all events of the reference have been
        delivered, and reports an error of the transport only once every event that was
        complete before it has been. */
    method Next() returns (item: Option<Item>)
      requires Valid()
      modifies this, decoder
      ensures Valid() && past + body == old(past + body)
      ensures match item
              case Some(x) => items == old(items) + [x] && Closer()
              case None => items == old(items) && body == [] && ended && EventsOf(items) == Reference(BytesOf(past))
      ensures item.Some? && item.value.Failure? ==>
                past != [] && past[|past| - 1] == Broken(item.value.error)
                && EventsOf(items) == EventsOfBlocks(Blocks(Normalize(BytesOf(past))))
    {
      hide Blocks, Rest, Normalize, EventsOfBlocks, EventsOf, FailuresOf, BytesOf, ErrorsIn, AllBlocks, Reference;
      while true
        invariant Valid() && past + body == old(past + body) && items == old(items)
        invariant Closer() || (body == old(body) && ended == old(ended) && decoder.buf == old(decoder.buf))
        decreases |body|, if ended then 0 else 1, |decoder.buf|
      {
        var took, event := TakeBlock();
        if took {
          if event.Some? {
            return Some(Delivered(event.value));
          }
          continue;
        }
        if ended {
          BlocksOfAllIsReference(BytesOf(past));
          assert decoder.taken + [] == decoder.taken;
          return None;
        }
        if body == [] {
          decoder.Finish();
          ended := true;
          continue;
        }
        var failure := Pull();
        if failure.Some? {
          return Some(Failure(failure.value));
        }
      }
    }
  }

  /** Pulled to its end, a stream delivers the events of the reference, however its bytes were
      cut into chunks, and each transport error once, in order. */
  method PullAll(body: seq<Read>) returns (items: seq<Item>)
    ensures EventsOf(items) == Reference(BytesOf(body))
    ensures FailuresOf(items) == ErrorsIn(body)
  {
    var stream := new EventStream(body);
    items := [];
    while true
      invariant stream.Valid() && fresh(stream) && fresh(stream.decoder)
      invariant items == stream.items && stream.past + stream.body == body
      decreases |stream.body|, if stream.ended then 0 else 1, |stream.decoder.buf|
    {
      var item := stream.Next();
      if item.None? {
        assert stream.past == body;
        return;
      }
      items := items + [item.value];
    }
  }
}
