// What a server prints is what the client decodes: any events, any line endings, any chunks.
module SseRoundTrip {
  import opened Wrappers
  import opened ByteText
  import opened SseFormat
  import opened SseClient

  // ---- Rows: lines with their endings ----

  datatype Eol = Lf | Cr | CrLf

  datatype Row = Row(text: Bytes, eol: Eol)

  function EolBytes(e: Eol): Bytes {
    match e case Lf => [LF] case Cr => [CR] case CrLf => [CR, LF]
  }

  function Raw(rows: seq<Row>): Bytes {
    if rows == [] then [] else rows[0].text + EolBytes(rows[0].eol) + Raw(rows[1..])
  }

  function Texts(rows: seq<Row>): seq<Bytes> {
    if rows == [] then [] else [rows[0].text] + Texts(rows[1..])
  }

  ghost predicate Clean(rows: seq<Row>) {
    forall i | 0 <= i < |rows| :: LF !in rows[i].text && CR !in rows[i].text
  }

  /** A lone CR, and next an empty line ended by LF: the two read as one CRLF. */
  predicate Collides(rows: seq<Row>, i: nat) {
    i + 1 < |rows| && rows[i].eol.Cr? && rows[i + 1].text == [] && rows[i + 1].eol.Lf?
  }

  /** The rows as they are read: of two that collide, the second vanishes. */
  function AsRead(rows: seq<Row>): (r: seq<Row>)
    ensures |r| <= |rows|
    decreases |rows|
  {
    if rows == [] then []
    else if Collides(rows, 0) then [rows[0].(eol := CrLf)] + AsRead(rows[2..])
    else [rows[0]] + AsRead(rows[1..])
  }

  lemma FirstBreak(text: Bytes, more: Bytes)
    requires LF !in text && CR !in text && more != [] && more[0] in {LF, CR}
    ensures IndexOfAny(text + more, {LF, CR}) == |text|
  {
    hide IndexOfAny;
    var s := text + more;
    assert s[|text|] == more[0];
    assert forall k | 0 <= k < |text| :: s[k] == text[k];
  }

  lemma Behind(text: Bytes, more: Bytes, n: nat)
    requires n <= |more|
    ensures (text + more)[|text| + n..] == more[n..] && (text + more)[..|text|] == text
  {
  }

  lemma FirstRawLine(text: Bytes, more: Bytes)
    requires LF !in text && CR !in text && more != [] && more[0] in {LF, CR}
    ensures RawLines(text + more) ==
              [text] + RawLines(more[if more[0] == CR && |more| > 1 && more[1] == LF then 2 else 1..])
  {
    hide IndexOfAny;
    FirstBreak(text, more);
    Behind(text, more, if more[0] == CR && |more| > 1 && more[1] == LF then 2 else 1);
  }

  lemma RawStart(rows: seq<Row>)
    requires rows != [] && Clean(rows)
    ensures Raw(rows) != []
    ensures Raw(rows)[0] == LF <==> rows[0].text == [] && rows[0].eol.Lf?
  {
    if rows[0].text != [] {
      assert Raw(rows)[0] == rows[0].text[0];
    } else {
      assert Raw(rows)[0] == EolBytes(rows[0].eol)[0];
    }
  }

  lemma FirstRowRead(rows: seq<Row>)
    requires rows != [] && Clean(rows) && !Collides(rows, 0)
    ensures RawLines(Raw(rows)) == [rows[0].text] + RawLines(Raw(rows[1..]))
  {
    var more := EolBytes(rows[0].eol) + Raw(rows[1..]);
    assert Raw(rows) == rows[0].text + more;
    FirstRawLine(rows[0].text, more);
    if rows[1..] != [] {
      RawStart(rows[1..]);
    }
    match rows[0].eol
    case Lf => assert more[1..] == Raw(rows[1..]);
    case Cr => assert more[1..] == Raw(rows[1..]);
    case CrLf => assert more[2..] == Raw(rows[1..]);
  }

  lemma RawStep(rows: seq<Row>)
    requires rows != []
    ensures Raw(rows) == rows[0].text + EolBytes(rows[0].eol) + Raw(rows[1..])
  {
  }

  lemma CrThenLf(text: Bytes, rest: Bytes)
    ensures text + [CR] + ([] + [LF] + rest) == text + ([CR, LF] + rest)
  {
  }

  lemma RawCollision(rows: seq<Row>)
    requires Collides(rows, 0)
    ensures Raw(rows) == rows[0].text + ([CR, LF] + Raw(rows[2..]))
  {
    hide Raw;
    RawStep(rows);
    RawStep(rows[1..]);
    assert rows[1..][1..] == rows[2..];
    CrThenLf(rows[0].text, Raw(rows[2..]));
  }

  lemma CollisionRead(rows: seq<Row>)
    requires Clean(rows) && Collides(rows, 0)
    ensures RawLines(Raw(rows)) == [rows[0].text] + RawLines(Raw(rows[2..]))
  {
    hide RawLines, Raw;
    var more := [CR, LF] + Raw(rows[2..]);
    RawCollision(rows);
    FirstRawLine(rows[0].text, more);
    assert more[2..] == Raw(rows[2..]);
  }

  /** Any mixture of line endings is read row by row, except that colliding rows merge. */
  lemma {:induction false} RawLinesOfRows(rows: seq<Row>)
    requires Clean(rows)
    ensures RawLines(Raw(rows)) == Texts(AsRead(rows)) + [[]]
    decreases |rows|
  {
    if rows == [] {
      assert RawLines([]) == [[]];
    } else if Collides(rows, 0) {
      CollisionRead(rows);
      RawLinesOfRows(rows[2..]);
      TextsOf(rows[0].(eol := CrLf), AsRead(rows[2..]));
    } else {
      FirstRowRead(rows);
      RawLinesOfRows(rows[1..]);
      TextsOf(rows[0], AsRead(rows[1..]));
    }
  }

  lemma TextsOf(x: Row, rows: seq<Row>)
    ensures Texts([x] + rows) + [[]] == [x.text] + (Texts(rows) + [[]])
  {
    assert ([x] + rows)[1..] == rows;
  }

  lemma {:induction false} TextCount(rows: seq<Row>)
    ensures |Texts(rows)| == |rows|
  {
    if rows != [] {
      TextCount(rows[1..]);
    }
  }

  lemma {:induction false} NothingMerges(rows: seq<Row>)
    ensures (forall i | 0 <= i < |rows| :: !Collides(rows, i)) ==> AsRead(rows) == rows
    ensures |AsRead(rows)| == |rows| ==> forall i | 0 <= i < |rows| :: !Collides(rows, i)
    decreases |rows|
  {
    if rows != [] {
      if Collides(rows, 0) {
        assert |AsRead(rows)| == 1 + |AsRead(rows[2..])| < |rows|;
      } else {
        NothingMerges(rows[1..]);
        forall i: nat | 0 < i < |rows| ensures Collides(rows, i) == Collides(rows[1..], i - 1) {
        }
        forall i | 0 <= i < |rows| - 1 ensures Collides(rows[1..], i) == Collides(rows, i + 1) {
        }
      }
    }
  }

  /** Mixed endings are read as written exactly if no lone CR is followed at once by an
      empty line ended by LF. */
  lemma MixedEndings(rows: seq<Row>)
    requires Clean(rows)
    ensures RawLines(Raw(rows)) == Texts(rows) + [[]] <==> forall i | 0 <= i < |rows| :: !Collides(rows, i)
  {
    RawLinesOfRows(rows);
    NothingMerges(rows);
    TextCount(rows);
    TextCount(AsRead(rows));
  }

  // ---- The printer ----

  const ID_FIELD: Bytes := ID + [COLON, SPACE]
  const DATA_FIELD: Bytes := DATA + [COLON, SPACE]

  function DataLines(lines: seq<Bytes>): seq<Bytes> {
    if lines == [] then [] else DataLines(lines[..|lines| - 1]) + [DATA_FIELD + lines[|lines| - 1]]
  }

  function Fields(e: Event): seq<Bytes> {
    (if e.id.Some? then [ID_FIELD + e.id.value] else []) + DataLines(Lines(e.data))
  }

  /** Each event: its id if it has one, one data line per line of data, a blank line. */
  function Printed(events: seq<Event>): seq<Bytes> {
    if events == [] then [] else Fields(events[0]) + [[]] + Printed(events[1..])
  }

  ghost predicate Printable(e: Event) {
    && e.data != [] && CR !in e.data
    && (e.id.Some? ==> LF !in e.id.value && CR !in e.id.value)
  }

  lemma FeedId(p: Pending, v: Bytes)
    ensures Feed(p, ID_FIELD + v) == p.(id := Some(v))
  {
    var line := ID_FIELD + v;
    assert line[0] == 105 && line[1] == 100 && line[2] == COLON && line[3] == SPACE;
    assert IndexOfAny(line, {COLON}) == 2;
    assert line[..2] == ID && line[4..] == v;
  }

  lemma FeedData(p: Pending, v: Bytes)
    ensures Feed(p, DATA_FIELD + v) == p.(data := Some(if p.data.None? then v else p.data.value + [LF] + v))
  {
    var line := DATA_FIELD + v;
    assert line[0] == 100 && line[1] == 97 && line[2] == 116 && line[3] == 97 && line[4] == COLON && line[5] == SPACE;
    assert IndexOfAny(line, {COLON}) == 4;
    assert line[..4] == DATA && line[6..] == v;
  }

  lemma {:induction false} FeedDataLines(p: Pending, lines: seq<Bytes>)
    requires p.data.None? && lines != []
    ensures FeedAll(p, DataLines(lines)) == p.(data := Some(Join(lines, LF)))
  {
    var n := |lines| - 1;
    assert DataLines(lines)[..|DataLines(lines)| - 1] == DataLines(lines[..n]);
    if n == 0 {
      assert DataLines(lines[..0]) == [];
      assert FeedAll(p, DataLines(lines[..0])) == p;
      FeedData(p, lines[0]);
    } else {
      FeedDataLines(p, lines[..n]);
      FeedData(FeedAll(p, DataLines(lines[..n])), lines[n]);
    }
  }

  lemma FeedFields(e: Event)
    ensures FeedAll(NOTHING, Fields(e)) == Pending(e.id, Some(e.data))
  {
    JoinUndoesSplit(e.data, LF);
    if e.id.Some? {
      FeedAllFrom(NOTHING, ID_FIELD + e.id.value, DataLines(Lines(e.data)));
      FeedId(NOTHING, e.id.value);
      FeedDataLines(Pending(e.id, None), Lines(e.data));
    } else {
      assert Fields(e) == DataLines(Lines(e.data));
      FeedDataLines(NOTHING, Lines(e.data));
    }
  }

  lemma {:induction false} DataLinesAreNotBlank(lines: seq<Bytes>)
    ensures forall k | 0 <= k < |DataLines(lines)| :: DataLines(lines)[k] != []
  {
    if lines != [] {
      DataLinesAreNotBlank(lines[..|lines| - 1]);
    }
  }

  lemma PrintedFirst(events: seq<Event>)
    requires events != []
    ensures Printed(events) == Fields(events[0]) + [[]] + Printed(events[1..])
  {
    hide Fields;
  }

  lemma BlankAfter(a: seq<Bytes>, b: seq<Bytes>)
    ensures (a + [[]] + b) + [[]] == a + [[]] + (b + [[]])
  {
  }

  lemma NothingPrinted()
    ensures Interpret(Printed([]) + [[]], NOTHING) == []
  {
    var blank: seq<Bytes> := [[]];
    assert Printed([]) + [[]] == blank && blank[1..] == [];
    assert Interpret(blank, NOTHING) == Dispatch(NOTHING) + Interpret([], NOTHING);
  }

  /** The reference interpreter reads printed events back. */
  lemma {:induction false} PrintedIsRead(events: seq<Event>)
    requires forall i | 0 <= i < |events| :: Printable(events[i])
    ensures Interpret(Printed(events) + [[]], NOTHING) == events
  {
    hide *;
    if events == [] {
      NothingPrinted();
    } else {
      PrintedIsRead(events[1..]);
      FieldsAreRead(events[0], Printed(events[1..]) + [[]]);
      PrintedFirst(events);
      BlankAfter(Fields(events[0]), Printed(events[1..]));
      assert events == [events[0]] + events[1..];
    }
  }

  lemma FieldsAreRead(e: Event, more: seq<Bytes>)
    requires Printable(e)
    ensures Interpret(Fields(e) + [[]] + more, NOTHING) == [e] + Interpret(more, NOTHING)
  {
    hide Interpret, FeedAll, Lines, DataLines;
    DataLinesAreNotBlank(Lines(e.data));
    FeedFields(e);
    InterpretFields(Fields(e), NOTHING, more);
  }

  /** It takes data to make an event: without, or with data that joins to the empty text, there
      is none. */
  lemma DataMakesTheEvent(e: Event)
    ensures Interpret(Fields(e), NOTHING) == if e.data == [] then [] else [e]
    ensures e.id.Some? ==> Interpret([ID_FIELD + e.id.value], NOTHING) == []
  {
    hide Interpret, FeedAll, Lines, DataLines;
    DataLinesAreNotBlank(Lines(e.data));
    FeedFields(e);
    InterpretFields(Fields(e), NOTHING, []);
    if e.id.Some? {
      FeedId(NOTHING, e.id.value);
      OneLine(ID_FIELD + e.id.value);
      InterpretFields([ID_FIELD + e.id.value], NOTHING, []);
    }
  }

  // ---- The round trip, and when it fails ----

  /** A blank line at the end of a stream changes nothing: what is pending comes out anyway. */
  lemma {:induction false} TrailingBlank(lines: seq<Bytes>, p: Pending)
    ensures Interpret(lines + [[]], p) == Interpret(lines, p)
  {
    var all := lines + [[]];
    if lines == [] {
      assert all[1..] == [];
      assert Interpret([], NOTHING) == [];
    } else {
      assert all[1..] == lines[1..] + [[]];
      TrailingBlank(lines[1..], if lines[0] == [] then NOTHING else Feed(p, lines[0]));
    }
  }

  function Blanks(lines: seq<Bytes>): nat {
    if lines == [] then 0 else (if lines[0] == [] then 1 else 0) + Blanks(lines[1..])
  }

  lemma OneBlank()
    ensures Blanks([[]]) == 1
  {
    var one: seq<Bytes> := [[]];
    assert one[1..] == [];
  }

  lemma {:induction false} BlanksConcat(a: seq<Bytes>, b: seq<Bytes>)
    ensures Blanks(a + b) == Blanks(a) + Blanks(b)
  {
    if a == [] {
      assert a + b == b;
    } else {
      BlanksConcat(a[1..], b);
      assert (a + b)[1..] == a[1..] + b;
    }
  }

  /** There is at most one event for each blank line, and one at the end. */
  lemma {:induction false} AtMostOnePerBlank(lines: seq<Bytes>, p: Pending)
    ensures |Interpret(lines, p)| <= Blanks(lines) + 1
  {
    if lines != [] {
      AtMostOnePerBlank(lines[1..], if lines[0] == [] then NOTHING else Feed(p, lines[0]));
    }
  }

  lemma AtMostOnePerBlankButTheLast(lines: seq<Bytes>, p: Pending)
    requires lines != [] && lines[|lines| - 1] == []
    ensures |Interpret(lines, p)| <= Blanks(lines)
  {
    var before := lines[..|lines| - 1];
    assert lines == before + [[]];
    TrailingBlank(before, p);
    AtMostOnePerBlank(before, p);
    BlanksConcat(before, [[]]);
    OneBlank();
  }

  lemma {:induction false} NoBlanks(lines: seq<Bytes>)
    requires forall k | 0 <= k < |lines| :: lines[k] != []
    ensures Blanks(lines) == 0
  {
    if lines != [] {
      NoBlanks(lines[1..]);
    }
  }

  lemma {:induction false} OneBlankPerEvent(events: seq<Event>)
    ensures Blanks(Printed(events)) == |events|
    ensures events != [] ==> Printed(events) != [] && Printed(events)[|Printed(events)| - 1] == []
  {
    if events != [] {
      var fields, rest := Fields(events[0]), Printed(events[1..]);
      OneBlankPerEvent(events[1..]);
      DataLinesAreNotBlank(Lines(events[0].data));
      NoBlanks(fields);
      BlanksConcat(fields, [[]]);
      BlanksConcat(fields + [[]], rest);
      OneBlank();
      assert Printed(events) == fields + [[]] + rest;
    }
  }

  /** What merges away is blank. */
  lemma {:induction false} BlanksAsRead(rows: seq<Row>)
    ensures Blanks(Texts(rows)) == Blanks(Texts(AsRead(rows))) + |rows| - |AsRead(rows)|
    decreases |rows|
  {
    if rows != [] {
      if Collides(rows, 0) {
        BlanksAsRead(rows[2..]);
        assert rows[1..][1..] == rows[2..];
        assert Texts(rows) == [rows[0].text] + ([[]] + Texts(rows[2..]));
        assert Texts(rows)[1..][1..] == Texts(rows[2..]);
        assert AsRead(rows)[1..] == AsRead(rows[2..]);
      } else {
        BlanksAsRead(rows[1..]);
        assert AsRead(rows)[1..] == AsRead(rows[1..]);
      }
    }
  }

  lemma CollidesInFront(a: seq<Row>, b: seq<Row>)
    ensures forall i: nat | i + 1 < |a| :: Collides(a + b, i) == Collides(a, i)
  {
  }

  // How many rows the first one that is read takes up.
  function FirstTakes(rows: seq<Row>): (n: nat)
    ensures 1 <= n <= 2
  {
    if Collides(rows, 0) then 2 else 1
  }

  function FirstRead(rows: seq<Row>): Row
    requires rows != []
  {
    if Collides(rows, 0) then rows[0].(eol := CrLf) else rows[0]
  }

  lemma AsReadFirst(rows: seq<Row>)
    requires rows != []
    ensures FirstTakes(rows) <= |rows|
    ensures AsRead(rows) == [FirstRead(rows)] + AsRead(rows[FirstTakes(rows)..])
  {
  }

  lemma SameInFront(a: seq<Row>, b: seq<Row>)
    requires a != [] && !Collides(a + b, |a| - 1)
    ensures FirstTakes(a + b) == FirstTakes(a) <= |a| && FirstRead(a + b) == FirstRead(a)
    ensures (a + b)[FirstTakes(a)..] == a[FirstTakes(a)..] + b
  {
  }

  lemma CollidesBehind(a: seq<Row>, b: seq<Row>, n: nat)
    requires n < |a|
    ensures (a + b)[n..] == a[n..] + b && Collides(a[n..] + b, |a[n..]| - 1) == Collides(a + b, |a| - 1)
  {
  }

  lemma NothingIsRead()
    ensures AsRead([]) == []
  {
  }

  lemma {:induction false} AsReadConcat(a: seq<Row>, b: seq<Row>)
    requires a != [] ==> !Collides(a + b, |a| - 1)
    ensures AsRead(a + b) == AsRead(a) + AsRead(b)
    decreases |a|
  {
    hide AsRead, Collides, FirstTakes, FirstRead;
    if a == [] {
      assert a + b == b;
      NothingIsRead();
    } else {
      var n := FirstTakes(a);
      SameInFront(a, b);
      AsReadFirst(a);
      AsReadFirst(a + b);
      if n < |a| {
        CollidesBehind(a, b, n);
      }
      AsReadConcat(a[n..], b);
    }
  }

  lemma TextsFirst(rows: seq<Row>)
    requires rows != []
    ensures Texts(rows) == [rows[0].text] + Texts(rows[1..])
  {
  }

  lemma {:induction false} TextsConcat(a: seq<Row>, b: seq<Row>)
    ensures Texts(a + b) == Texts(a) + Texts(b)
  {
    if a == [] {
      assert a + b == b;
    } else {
      TextsFirst(a);
      TextsFirst(a + b);
      hide Texts;
      TextsConcat(a[1..], b);
      assert (a + b)[1..] == a[1..] + b;
      Associative([a[0].text], Texts(a[1..]), Texts(b));
    }
  }

  // What is decoded of rows as they are read.
  lemma DecodedRows(rows: seq<Row>)
    requires Clean(rows)
    ensures Reference(Raw(rows)) == Interpret(Texts(AsRead(rows)), NOTHING)
  {
    RawLinesOfRows(rows);
    TrailingBlank(Texts(AsRead(rows)), NOTHING);
  }

  lemma CollisionBeforeTheLast(rows: seq<Row>, i: nat)
    requires |rows| >= 2 && i < |rows| - 2 && Collides(rows, i) && !Collides(rows, |rows| - 2)
    requires rows[|rows| - 1].text == []
    ensures |Interpret(Texts(AsRead(rows)), NOTHING)| < Blanks(Texts(rows))
  {
    hide Interpret, Texts, AsRead;
    BlanksAsRead(rows);
    var n := |rows| - 1;
    SplitAsRead(rows, n, i);
    SingleRow(rows[n..]);
    TextsConcat(AsRead(rows[..n]), rows[n..]);
    AtMostOnePerBlankButTheLast(Texts(AsRead(rows)), NOTHING);
  }

  // The last two rows are read as one, and so are two before them.
  lemma CollisionsTwice(rows: seq<Row>, i: nat)
    requires |rows| >= 2 && i < |rows| - 2 && Collides(rows, i) && Collides(rows, |rows| - 2)
    ensures |Interpret(Texts(AsRead(rows)), NOTHING)| < Blanks(Texts(rows))
  {
    hide Interpret, Texts, AsRead;
    BlanksAsRead(rows);
    var n := |rows| - 2;
    SplitAsRead(rows, n, i);
    TwoAsOne(rows[n..]);
    AtMostOnePerBlank(Texts(AsRead(rows)), NOTHING);
  }

  lemma SingleRow(rows: seq<Row>)
    requires |rows| == 1
    ensures AsRead(rows) == rows && Texts(rows) == [rows[0].text]
  {
    assert rows[1..] == [];
  }

  lemma TwoAsOne(rows: seq<Row>)
    requires |rows| == 2 && Collides(rows, 0)
    ensures AsRead(rows) == [rows[0].(eol := CrLf)] && Texts(rows) == Texts(AsRead(rows)) + [[]]
  {
    assert rows[2..] == [] && rows[1..][1..] == [];
    assert AsRead(rows)[1..] == [];
  }

  /** A collision before the last row loses an event: two of them run together. */
  lemma CollisionLosesAnEvent(rows: seq<Row>, i: nat)
    requires Clean(rows) && |rows| >= 2 && i < |rows| - 2 && Collides(rows, i)
    requires rows[|rows| - 1].text == []
    ensures |Reference(Raw(rows))| < Blanks(Texts(rows))
  {
    DecodedRows(rows);
    hide *;
    if Collides(rows, |rows| - 2) {
      CollisionsTwice(rows, i);
    } else {
      CollisionBeforeTheLast(rows, i);
    }
  }

  // Cut where nothing collides, the front still holds the collision at i.
  lemma SplitAsRead(rows: seq<Row>, n: nat, i: nat)
    requires 0 < n <= |rows| && !Collides(rows, n - 1) && i + 1 < n && Collides(rows, i)
    ensures AsRead(rows) == AsRead(rows[..n]) + AsRead(rows[n..]) && |AsRead(rows[..n])| < n
  {
    assert rows == rows[..n] + rows[n..];
    AsReadConcat(rows[..n], rows[n..]);
    NothingMerges(rows[..n]);
    assert Collides(rows[..n], i);
  }

  /** A collision with the last row only costs the last blank line, which the end makes up for. */
  lemma LastCollisionIsHarmless(events: seq<Event>, rows: seq<Row>)
    requires forall i | 0 <= i < |events| :: Printable(events[i])
    requires Texts(rows) == Printed(events) && Clean(rows) && |rows| >= 2 && Collides(rows, |rows| - 2)
    requires forall i | 0 <= i < |rows| - 2 :: !Collides(rows, i)
    ensures Reference(Raw(rows)) == events
  {
    hide Clean, Raw, RawLines, Interpret, Lines, Printed, Texts, AsRead, Reference;
    var n := |rows| - 2;
    var front, last := rows[..n], rows[n..];
    assert rows == front + last && Collides(last, 0);
    CollidesInFront(front, last);
    assert forall i: nat | i < |front| :: !Collides(front, i);
    NothingMerges(front);
    AsReadConcat(front, last);
    TwoAsOne(last);
    TextsConcat(front, last);
    TextsConcat(front, AsRead(last));
    var read := Texts(AsRead(rows));
    assert Texts(rows) == read + [[]];
    DecodedRows(rows);
    TrailingBlank(read, NOTHING);
    TrailingBlank(Texts(rows), NOTHING);
    PrintedIsRead(events);
  }

  /** The round trip: printed with any endings, cut into any chunks, with any transport errors
      between them, the events come back as they were exactly if no rows but the last two
      collide. */
  lemma RoundTrip(events: seq<Event>, rows: seq<Row>, body: seq<Read>)
    requires forall i | 0 <= i < |events| :: Printable(events[i])
    requires Texts(rows) == Printed(events) && Clean(rows) && BytesOf(body) == Raw(rows)
    ensures Reference(BytesOf(body)) == events <==> forall i | 0 <= i < |rows| - 2 :: !Collides(rows, i)
  {
    hide *;
    if i :| 0 <= i < |rows| - 2 && Collides(rows, i) {
      RoundTripFails(events, rows, i);
    } else if |rows| >= 2 && Collides(rows, |rows| - 2) {
      LastCollisionIsHarmless(events, rows);
    } else {
      RoundTripWithout(events, rows);
    }
  }

  lemma RoundTripFails(events: seq<Event>, rows: seq<Row>, i: nat)
    requires Texts(rows) == Printed(events) && Clean(rows) && i < |rows| - 2 && Collides(rows, i)
    ensures Reference(Raw(rows)) != events
  {
    hide Interpret, RawLines, Raw, Lines, Clean;
    OneBlankPerEvent(events);
    LastText(rows);
    CollisionLosesAnEvent(rows, i);
  }

  lemma RoundTripWithout(events: seq<Event>, rows: seq<Row>)
    requires forall i | 0 <= i < |events| :: Printable(events[i])
    requires Texts(rows) == Printed(events) && Clean(rows)
    requires forall i | 0 <= i < |rows| - 2 :: !Collides(rows, i)
    requires |rows| >= 2 ==> !Collides(rows, |rows| - 2)
    ensures Reference(Raw(rows)) == events
  {
    assert forall i: nat | i < |rows| :: !Collides(rows, i);
    hide *;
    MixedEndings(rows);
    PrintedIsRead(events);
  }

  lemma {:induction false} LastText(rows: seq<Row>)
    requires rows != []
    ensures |Texts(rows)| == |rows| && Texts(rows)[|rows| - 1] == rows[|rows| - 1].text
  {
    if |rows| > 1 {
      LastText(rows[1..]);
    }
  }

  // ---- One style throughout ----

  function Styled(lines: seq<Bytes>, eol: Eol): seq<Row> {
    if lines == [] then [] else [Row(lines[0], eol)] + Styled(lines[1..], eol)
  }

  lemma {:induction false} StyledRows(lines: seq<Bytes>, eol: Eol)
    ensures Texts(Styled(lines, eol)) == lines
    ensures |Styled(lines, eol)| == |lines|
    ensures forall i | 0 <= i < |lines| :: Styled(lines, eol)[i] == Row(lines[i], eol)
  {
    if lines != [] {
      StyledRows(lines[1..], eol);
      assert lines == [lines[0]] + lines[1..];
      assert Styled(lines, eol)[1..] == Styled(lines[1..], eol);
    }
  }

  // No line break inside any of the lines.
  ghost predicate Unbroken(lines: seq<Bytes>) {
    forall k | 0 <= k < |lines| :: LF !in lines[k] && CR !in lines[k]
  }

  lemma {:induction false} LinesAreUnbroken(s: Bytes)
    requires CR !in s
    ensures Unbroken(Lines(s))
    decreases |s|
  {
    PiecesHoldNoSeparator(s, LF);
    var i := IndexOfAny(s, {LF});
    if i < |s| {
      LinesAreUnbroken(s[i + 1..]);
    }
  }

  lemma {:induction false} DataLinesAreUnbroken(lines: seq<Bytes>)
    requires Unbroken(lines)
    ensures Unbroken(DataLines(lines))
  {
    if lines != [] {
      DataLinesAreUnbroken(lines[..|lines| - 1]);
    }
  }

  lemma {:induction false} PrintedIsUnbroken(events: seq<Event>)
    requires forall i | 0 <= i < |events| :: Printable(events[i])
    ensures Unbroken(Printed(events))
  {
    if events != [] {
      PrintedIsUnbroken(events[1..]);
      LinesAreUnbroken(events[0].data);
      DataLinesAreUnbroken(Lines(events[0].data));
    }
  }

  /** With one style of line ending throughout, every printable list of events comes back. */
  lemma UniformRoundTrip(events: seq<Event>, eol: Eol, body: seq<Read>)
    requires forall i | 0 <= i < |events| :: Printable(events[i])
    requires BytesOf(body) == Raw(Styled(Printed(events), eol))
    ensures Reference(BytesOf(body)) == events
  {
    var rows := Styled(Printed(events), eol);
    StyledRows(Printed(events), eol);
    PrintedIsUnbroken(events);
    RoundTrip(events, rows, body);
  }
}
