// Extension negotiation: parse the header, check it against what the agent advertises,
// and echo the result (crates/turul-a2a/src/profile_dispatch.rs).
module Extensions {
  import opened Wrappers
  import opened ByteText
  import opened Utf8

  const COMMA: Byte := 44
  const SPACE: Byte := 32

  datatype Extension = Extension(uri: Bytes, required: bool)

  datatype NegotiationError = SupportRequired(uri: Bytes)

  // ---- Parsing ----

  function UrisIn(pieces: seq<Bytes>): set<Bytes> {
    set p | p in pieces && Trim(p) != [] :: Trim(p)
  }

  function Activated(header: Option<Bytes>): set<Bytes> {
    match header
    case None => {}
    case Some(raw) => UrisIn(Split(raw, COMMA))
  }

  lemma OneMorePiece(pieces: seq<Bytes>, p: Bytes)
    ensures UrisIn(pieces + [p]) == UrisIn(pieces) + if Trim(p) == [] then {} else {Trim(p)}
  {
    hide Trim;
  }

  method ParseA2aExtensions(header: Option<Bytes>) returns (out: set<Bytes>)
    ensures out == Activated(header)
  {
    out := {};
    if header.None? {
      return;
    }
    var pieces := Split(header.value, COMMA);
    for i := 0 to |pieces|
      invariant out == UrisIn(pieces[..i])
    {
      hide Trim;
      assert pieces[..i + 1] == pieces[..i] + [pieces[i]];
      OneMorePiece(pieces[..i], pieces[i]);
      var trimmed := Trim(pieces[i]);
      if trimmed == [] {
        continue;
      }
      out := out + {trimmed};
    }
    assert pieces[..|pieces|] == pieces;
  }

  /** A URI that parsing can yield: not empty, no white space around it, no comma in it. */
  ghost predicate IsUri(u: Bytes) {
    u != [] && Trimmed(u) && COMMA !in u
  }

  lemma ParsedAreUris(header: Option<Bytes>)
    ensures forall u | u in Activated(header) :: IsUri(u)
  {
    if header.Some? {
      var pieces := Split(header.value, COMMA);
      PiecesHoldNoSeparator(header.value, COMMA);
      forall p | p in pieces ensures Trimmed(Trim(p)) && COMMA !in Trim(p) {
        TrimIsTrimmed(p);
      }
    }
  }

  // ---- Negotiating ----

  function AdvertisedUris(advertised: seq<Extension>): set<Bytes> {
    set e | e in advertised :: e.uri
  }

  function RequiredUris(advertised: seq<Extension>): set<Bytes> {
    set e | e in advertised && e.required :: e.uri
  }

  /** Ok exactly if everything required was activated, and then the intersection; an error
      names the first required extension that was not. */
  method ValidateActivation(activated: set<Bytes>, advertised: seq<Extension>)
    returns (r: Result<set<Bytes>, NegotiationError>)
    ensures r.Ok? <==> RequiredUris(advertised) <= activated
    ensures r.Ok? ==> r.value == activated * AdvertisedUris(advertised) && RequiredUris(advertised) <= r.value
    ensures r.Err? ==> exists i ::
              && 0 <= i < |advertised| && advertised[i].required && advertised[i].uri !in activated
              && r.error == SupportRequired(advertised[i].uri)
              && forall k | 0 <= k < i && advertised[k].required :: advertised[k].uri in activated
  {
    for i := 0 to |advertised|
      invariant forall k | 0 <= k < i && advertised[k].required :: advertised[k].uri in activated
    {
      if advertised[i].required && advertised[i].uri !in activated {
        assert advertised[i].uri in RequiredUris(advertised);
        return Err(SupportRequired(advertised[i].uri));
      }
    }
    return Ok(activated * AdvertisedUris(advertised));
  }

  // ---- The echo ----

  /** Byte order, as strings are sorted by. */
  predicate Less(a: Bytes, b: Bytes) {
    if a == [] then b != []
    else if b == [] then false
    else a[0] < b[0] || (a[0] == b[0] && Less(a[1..], b[1..]))
  }

  /** One is less than the other if it is a proper prefix, or has the smaller byte where they
      first differ. */
  lemma {:induction false} LessIsLexicographic(a: Bytes, b: Bytes)
    ensures Less(a, b) <==> exists n :: ComesFirstAt(a, b, n)
  {
    if a == [] {
      assert b != [] ==> ComesFirstAt(a, b, 0);
    } else if b != [] {
      if a[0] == b[0] {
        LessIsLexicographic(a[1..], b[1..]);
        OneByteOn(a, b);
      } else {
        assert a[0] < b[0] ==> ComesFirstAt(a, b, 0);
      }
    }
  }

  ghost predicate ComesFirstAt(a: Bytes, b: Bytes, n: nat) {
    n <= |a| && n < |b| && a[..n] == b[..n] && (n == |a| || a[n] < b[n])
  }

  lemma OneByteOn(a: Bytes, b: Bytes)
    requires a != [] && b != [] && a[0] == b[0]
    ensures (exists n :: ComesFirstAt(a, b, n)) <==> exists n :: ComesFirstAt(a[1..], b[1..], n)
  {
    forall n: nat ensures ComesFirstAt(a[1..], b[1..], n) <==> ComesFirstAt(a, b, n + 1) {
      if n < |a| && n < |b| {
        assert a[..n + 1] == [a[0]] + a[1..][..n] && b[..n + 1] == [b[0]] + b[1..][..n];
      }
    }
    if n: nat :| ComesFirstAt(a, b, n) {
      assert n > 0;
      assert ComesFirstAt(a[1..], b[1..], n - 1) <==> ComesFirstAt(a, b, n - 1 + 1);
    }
  }

  lemma {:induction false} LessIsTotal(a: Bytes, b: Bytes)
    ensures a != b ==> Less(a, b) || Less(b, a)
    ensures !(Less(a, b) && Less(b, a)) && !Less(a, a)
  {
    if a != [] && b != [] {
      LessIsTotal(a[1..], b[1..]);
      LessIsTotal(a[1..], a[1..]);
      assert a == [a[0]] + a[1..] && b == [b[0]] + b[1..];
    } else if a != [] {
      LessIsTotal(a[1..], a[1..]);
    }
  }

  lemma {:induction false} LessIsTransitive(a: Bytes, b: Bytes, c: Bytes)
    requires Less(a, b) && Less(b, c)
    ensures Less(a, c)
  {
    if a != [] && a[0] == b[0] == c[0] {
      LessIsTransitive(a[1..], b[1..], c[1..]);
    }
  }

  ghost predicate Ascending(r: seq<Bytes>) {
    forall i, j | 0 <= i < j < |r| :: Less(r[i], r[j])
  }

  /** The sorted list of a set. */
  ghost predicate Lists(r: seq<Bytes>, s: set<Bytes>) {
    Ascending(r) && forall u :: u in r <==> u in s
  }

  /** There is only one: the echo does not depend on the order a set is walked in. */
  lemma {:induction false} OnlyOneListing(a: seq<Bytes>, b: seq<Bytes>, s: set<Bytes>)
    requires Lists(a, s) && Lists(b, s)
    ensures a == b
    decreases |a|
  {
    ListsNothing(a, s);
    ListsNothing(b, s);
    if s != {} {
      FirstIsLeast(a, s);
      FirstIsLeast(b, s);
      assert a[0] in a && b[0] in b;
      LessIsTotal(a[0], b[0]);
      TailLists(a, s);
      TailLists(b, s);
      OnlyOneListing(a[1..], b[1..], s - {a[0]});
      assert a == [a[0]] + a[1..] && b == [b[0]] + b[1..];
    }
  }

  lemma ListsNothing(a: seq<Bytes>, s: set<Bytes>)
    requires Lists(a, s)
    ensures a == [] <==> s == {}
  {
    assert a != [] ==> a[0] in a;
    if s != {} {
      var u :| u in s;
      assert u in a;
    }
  }

  lemma FirstIsLeast(a: seq<Bytes>, s: set<Bytes>)
    requires Lists(a, s) && a != []
    ensures forall u | u in s :: u == a[0] || Less(a[0], u)
  {
  }

  lemma TailLists(a: seq<Bytes>, s: set<Bytes>)
    requires Lists(a, s) && a != []
    ensures Lists(a[1..], s - {a[0]})
  {
    LessIsTotal(a[0], a[0]);
    forall u | u in a[1..] ensures u in s - {a[0]} {
      var i :| 0 < i < |a| && a[i] == u;
      assert Less(a[0], a[i]);
    }
    forall u | u in s - {a[0]} ensures u in a[1..] {
      var i :| 0 <= i < |a| && a[i] == u;
      assert a[1..][i - 1] == u;
    }
  }

  // Where u goes in an ascending list that does not hold it.
  method InsertUri(r: seq<Bytes>, u: Bytes) returns (out: seq<Bytes>)
    requires Ascending(r) && u !in r
    ensures Ascending(out) && forall x :: x in out <==> x in r || x == u
  {
    var i := 0;
    while i < |r| && Less(r[i], u)
      invariant 0 <= i <= |r|
      invariant forall k | 0 <= k < i :: Less(r[k], u)
    {
      i := i + 1;
    }
    forall k | i <= k < |r| ensures Less(u, r[k]) {
      LessIsTotal(u, r[i]);
      if k > i {
        LessIsTransitive(u, r[i], r[k]);
      }
    }
    out := r[..i] + [u] + r[i..];
  }

  function Separated(uris: seq<Bytes>): Bytes
    requires uris != []
  {
    if |uris| == 1 then uris[0] else Separated(uris[..|uris| - 1]) + [COMMA, SPACE] + uris[|uris| - 1]
  }

  method SortedUris(s: set<Bytes>) returns (sorted: seq<Bytes>)
    ensures Lists(sorted, s)
  {
    sorted := [];
    var left := s;
    while left != {}
      invariant left <= s && Lists(sorted, s - left)
      decreases |left|
    {
      var u :| u in left;
      sorted := InsertUri(sorted, u);
      left := left - {u};
    }
  }

  method ResponseHeaderValue(activated: set<Bytes>) returns (r: Option<Bytes>)
    ensures if activated == {} then r == None
            else exists uris :: Lists(uris, activated) && uris != [] && r == Some(Separated(uris))
  {
    if activated == {} {
      return None;
    }
    var sorted := SortedUris(activated);
    ListsNothing(sorted, activated);
    return Some(Separated(sorted));
  }

  // The pieces of an echoed list: every one after the first has a space before it.
  function Spaced(uris: seq<Bytes>): (r: seq<Bytes>)
    ensures |r| == |uris|
  {
    seq(|uris|, i requires 0 <= i < |uris| => if i == 0 then uris[i] else [SPACE] + uris[i])
  }

  lemma {:induction false} SplitSeparated(uris: seq<Bytes>)
    requires uris != [] && forall u | u in uris :: IsUri(u)
    ensures Split(Separated(uris), COMMA) == Spaced(uris)
  {
    hide Split, Trimmed;
    var n := |uris| - 1;
    if n == 0 {
      assert uris[0] in uris;
      OnePiece(uris[0], COMMA);
    } else {
      var init, last := uris[..n], uris[n];
      assert last in uris;
      assert Separated(uris) == Separated(init) + [COMMA] + ([SPACE] + last);
      SplitSeparated(init);
      OnePiece([SPACE] + last, COMMA);
      SplitConcat(Separated(init), [SPACE] + last, COMMA);
      assert Spaced(uris) == Spaced(init) + [[SPACE] + last];
    }
  }

  lemma TrimmedPieces(pieces: seq<Bytes>, uris: seq<Bytes>)
    requires |pieces| == |uris| && forall i | 0 <= i < |uris| :: Trim(pieces[i]) == uris[i] && uris[i] != []
    ensures forall u :: u in UrisIn(pieces) <==> u in uris
  {
    hide Trim;
    forall u | u in uris ensures u in UrisIn(pieces) {
      var i :| 0 <= i < |uris| && uris[i] == u;
      assert pieces[i] in pieces;
    }
    forall u | u in UrisIn(pieces) ensures u in uris {
      var p :| p in pieces && Trim(p) != [] && Trim(p) == u;
      var i :| 0 <= i < |pieces| && pieces[i] == p;
      assert uris[i] == u;
    }
  }

  lemma TrimSpaced(uris: seq<Bytes>, i: nat)
    requires i < |uris| && IsUri(uris[i])
    ensures Trim(Spaced(uris)[i]) == uris[i]
  {
    hide Trim, Trimmed, SpaceAtFront, SpaceAtEnd;
    TrimOfTrimmed(uris[i]);
    TrimPadded([SPACE], uris[i], []);
    assert [SPACE] + uris[i] + [] == [SPACE] + uris[i];
  }

  ghost predicate Enumerates(uris: seq<Bytes>, s: set<Bytes>) {
    forall u :: u in uris <==> u in s
  }

  /** Parsing a written list, such as the echo, gives back the very set. */
  lemma EchoParsesBack(uris: seq<Bytes>, s: set<Bytes>)
    requires Enumerates(uris, s) && uris != [] && forall u | u in s :: IsUri(u)
    ensures Activated(Some(Separated(uris))) == s
  {
    SplitSeparated(uris);
    forall i | 0 <= i < |uris| ensures Trim(Spaced(uris)[i]) == uris[i] && uris[i] != [] {
      assert uris[i] in uris;
      TrimSpaced(uris, i);
    }
    TrimmedPieces(Spaced(uris), uris);
  }

  lemma {:induction false} Enumerate(s: set<Bytes>) returns (uris: seq<Bytes>)
    ensures Enumerates(uris, s)
    decreases |s|
  {
    if s == {} {
      uris := [];
    } else {
      var u :| u in s;
      var rest := Enumerate(s - {u});
      uris := [u] + rest;
    }
  }

  /** Some request can meet an agent's requirements exactly if every required URI can be
      written in the header: it is not empty, holds no comma, and has no white space at
      either end. */
  lemma SomeHeaderNegotiates(advertised: seq<Extension>)
    ensures (exists header :: RequiredUris(advertised) <= Activated(header)) <==>
              forall u | u in RequiredUris(advertised) :: IsUri(u)
  {
    if forall u | u in RequiredUris(advertised) :: IsUri(u) {
      var uris := Enumerate(RequiredUris(advertised));
      if uris == [] {
        assert RequiredUris(advertised) <= Activated(None);
      } else {
        EchoParsesBack(uris, RequiredUris(advertised));
        assert RequiredUris(advertised) <= Activated(Some(Separated(uris)));
      }
    }
    forall header | RequiredUris(advertised) <= Activated(header)
      ensures forall u | u in RequiredUris(advertised) :: IsUri(u)
    {
      ParsedAreUris(header);
    }
  }

  // ---- The whole exchange ----

  /** For every header and agent that negotiate: all that is required is in the result, the
      result is what was both activated and advertised, the echo parses back to it, and a
      client that sends the echo negotiates the same result again. */
  method Negotiate(header: Option<Bytes>, advertised: seq<Extension>)
    returns (r: Result<set<Bytes>, NegotiationError>, echo: Option<Bytes>)
    ensures r.Ok? <==> RequiredUris(advertised) <= Activated(header)
    ensures r.Ok? ==>
              && RequiredUris(advertised) <= r.value
              && r.value == Activated(header) * AdvertisedUris(advertised)
              && Activated(echo) == r.value
              && RequiredUris(advertised) <= Activated(echo)
              && Activated(echo) * AdvertisedUris(advertised) == r.value
  {
    var activated := ParseA2aExtensions(header);
    r := ValidateActivation(activated, advertised);
    echo := None;
    if r.Ok? {
      ParsedAreUris(header);
      echo := ResponseHeaderValue(r.value);
      if r.value != {} {
        ghost var uris :| Lists(uris, r.value) && uris != [] && echo == Some(Separated(uris));
        EchoParsesBack(uris, r.value);
      }
    }
  }
}
