// The prompt template renderer (crates/turul-a2a-patterns/src/template.rs).
module Template {
  import opened Wrappers
  import opened ByteText
  import opened Utf8
  import opened JsonValue

  const BACKSLASH: Byte := 92
  const DOT: Byte := 46
  const LEFT: Byte := 123
  const RIGHT: Byte := 125
  const OPEN: Bytes := [LEFT, LEFT]
  const CLOSE: Bytes := [RIGHT, RIGHT]
  const ESCAPED: Bytes := [BACKSLASH, LEFT, LEFT]

  datatype SyntaxProblem = Unterminated | EmptyExpression

  datatype RenderError =
    | Syntax(at: nat, problem: SyntaxProblem)
    | MissingVariable(path: Bytes, at: nat)

  // ---- Looking a path up ----

  function Get(v: Json, key: Bytes): Option<Json> {
    if v.Obj? && key in v.fields then Some(v.fields[key]) else None
  }

  function Lookup(v: Json, segments: seq<Bytes>): Option<Json> {
    if segments == [] then Some(v)
    else if segments[0] == [] then None
    else match Get(v, segments[0])
      case None => None
      case Some(x) => Lookup(x, segments[1..])
  }

  method ResolvePath(root: Json, path: Bytes) returns (r: Option<Json>)
    ensures r == Lookup(root, Split(path, DOT))
  {
    var cur := root;
    var segments := Split(path, DOT);
    assert segments[0..] == segments;
    for i := 0 to |segments|
      invariant Lookup(cur, segments[i..]) == Lookup(root, segments)
    {
      assert segments[i..][1..] == segments[i + 1..];
      if segments[i] == [] {
        return None;
      }
      if !cur.Obj? || segments[i] !in cur.fields {
        return None;
      }
      cur := cur.fields[segments[i]];
    }
    return Some(cur);
  }

  /** The objects, each inside the other, that lead to v. */
  function Nest(segments: seq<Bytes>, v: Json): Json {
    if segments == [] then v else Obj(map[segments[0] := Nest(segments[1..], v)])
  }

  /** A dotted path finds what was nested under its segments, and an empty segment nothing. */
  lemma {:induction false} DottedPathFindsNested(segments: seq<Bytes>, v: Json)
    requires segments != [] && forall k | 0 <= k < |segments| :: DOT !in segments[k]
    ensures Lookup(Nest(segments, v), Split(Join(segments, DOT), DOT)) ==
              if forall k | 0 <= k < |segments| :: segments[k] != [] then Some(v) else None
  {
    SplitUndoesJoin(segments, DOT);
    LookupNested(segments, v);
  }

  lemma {:induction false} LookupNested(segments: seq<Bytes>, v: Json)
    ensures Lookup(Nest(segments, v), segments) ==
              if forall k | 0 <= k < |segments| :: segments[k] != [] then Some(v) else None
  {
    if segments != [] {
      LookupNested(segments[1..], v);
      assert forall k | 0 < k < |segments| :: segments[k] == segments[1..][k - 1];
    }
  }

  // ---- Rendering ----

  // `print` is serde_json's text for a value that is no string.
  function RenderValue(v: Json, printer: Json -> Bytes): Bytes {
    match v
    case Str(text) => text
    case Null => [110, 117, 108, 108]
    case _ => printer(v)
  }

  predicate StartsEscaped(s: Bytes) {
    |s| >= 3 && s[0] == BACKSLASH && s[1] == LEFT && s[2] == LEFT
  }

  predicate StartsOpen(s: Bytes) {
    |s| >= 2 && s[0] == LEFT && s[1] == LEFT
  }

  predicate ClosesAt(s: Bytes, k: nat) {
    k + 1 < |s| && s[k] == RIGHT && s[k + 1] == RIGHT
  }

  /** The index of the first "}}" in s, or |s|. */
  function FindClose(s: Bytes): (i: nat)
    ensures i <= |s|
    ensures i < |s| ==> ClosesAt(s, i)
    ensures forall k | 0 <= k < i :: !ClosesAt(s, k)
  {
    if s == [] || ClosesAt(s, 0) then 0
    else
      var i := FindClose(s[1..]);
      assert forall k: nat | 0 < k :: ClosesAt(s, k) == ClosesAt(s[1..], k - 1);
      i + 1
  }

  function Then(text: Bytes, rest: Result<Bytes, RenderError>): Result<Bytes, RenderError> {
    match rest
    case Ok(r) => Ok(text + r)
    case Err(e) => Err(e)
  }

  // The value of the expression `raw` that opens at `at`.
  function Expression(raw: Bytes, params: Json, printer: Json -> Bytes, at: nat): Result<Bytes, RenderError> {
    var path := Trim(raw);
    if path == [] then Err(Syntax(at, EmptyExpression))
    else match Lookup(params, Split(path, DOT))
      case None => Err(MissingVariable(path, at))
      case Some(v) => Ok(RenderValue(v, printer))
  }

  /** The specification, byte by byte; `at` is the offset of s in the template. */
  function Render(s: Bytes, params: Json, printer: Json -> Bytes, at: nat): Result<Bytes, RenderError>
    decreases |s|
  {
    if s == [] then Ok([])
    else if StartsEscaped(s) then Then(OPEN, Render(s[3..], params, printer, at + 3))
    else if StartsOpen(s) then
      var close := FindClose(s[2..]);
      if close == |s| - 2 then Err(Syntax(at, Unterminated))
      else match Expression(s[2..2 + close], params, printer, at)
        case Err(e) => Err(e)
        case Ok(text) => Then(text, Render(s[close + 4..], params, printer, at + close + 4))
    else Then([s[0]], Render(s[1..], params, printer, at + 1))
  }

  /** A whole character that opens nothing is copied. */
  lemma {:induction false} RenderChar(s: Bytes, n: nat, params: Json, printer: Json -> Bytes, at: nat)
    requires 0 < n <= |s| && !StartsEscaped(s) && !StartsOpen(s)
    requires forall k | 0 < k < n :: Continues(s[k])
    ensures Render(s, params, printer, at) == Then(s[..n], Render(s[n..], params, printer, at + n))
  {
    hide FindClose, Expression;
    if n > 1 {
      var t := s[1..];
      assert t[0] == s[1] && Continues(t[0]);
      RenderChar(t, n - 1, params, printer, at + 1);
      assert t[n - 1..] == s[n..];
      assert [s[0]] + t[..n - 1] == s[..n];
      ThenThen([s[0]], t[..n - 1], Render(s[n..], params, printer, at + n));
    } else {
      assert s[..1] == [s[0]];
    }
  }

  lemma ThenThen(a: Bytes, b: Bytes, r: Result<Bytes, RenderError>)
    ensures Then(a, Then(b, r)) == Then(a + b, r)
  {
    if r.Ok? {
      assert a + (b + r.value) == (a + b) + r.value;
    }
  }

  // The three ways the loop advances from i, each to a character boundary.

  lemma PastEscape(t: Bytes, i: nat, params: Json, printer: Json -> Bytes)
    requires i < |t| && WellFormed(t[i..]) && StartsEscaped(t[i..])
    ensures WellFormed(t[i + 3..])
    ensures Render(t[i..], params, printer, i) == Then(OPEN, Render(t[i + 3..], params, printer, i + 3))
  {
    assert t[i..][2] == LEFT;
    AsciiIsABoundary(t[i..], 2);
    assert t[i..][3..] == t[i + 3..];
  }

  lemma RenderAtOpen(s: Bytes, params: Json, printer: Json -> Bytes, at: nat)
    requires StartsOpen(s)
    ensures var close := FindClose(s[2..]);
            Render(s, params, printer, at) ==
              if close == |s| - 2 then Err(Syntax(at, Unterminated))
              else match Expression(s[2..2 + close], params, printer, at)
                case Err(e) => Err(e)
                case Ok(text) => Then(text, Render(s[close + 4..], params, printer, at + close + 4))
  {
    hide Expression, FindClose;
  }

  lemma PastExpression(t: Bytes, i: nat, params: Json, printer: Json -> Bytes)
    requires i < |t| && WellFormed(t[i..]) && StartsOpen(t[i..])
    ensures i + 2 <= |t|
    ensures var close := FindClose(t[i + 2..]);
            if close == |t| - (i + 2) then Render(t[i..], params, printer, i) == Err(Syntax(i, Unterminated))
            else
              && WellFormed(t[i + close + 4..])
              && Render(t[i..], params, printer, i) ==
                   match Expression(t[i + 2..i + 2 + close], params, printer, i)
                   case Err(e) => Err(e)
                   case Ok(text) => Then(text, Render(t[i + close + 4..], params, printer, i + close + 4))
  {
    hide Render, FindClose, Expression, WellFormed;
    var s := t[i..];
    assert s[1] == LEFT;
    assert s[2..] == t[i + 2..];
    RenderAtOpen(s, params, printer, i);
    var close := FindClose(s[2..]);
    if close < |s| - 2 {
      assert s[2..2 + close] == t[i + 2..i + 2 + close] && s[close + 4..] == t[i + close + 4..];
      assert s[close + 3] == s[2..][close + 1];
      AsciiIsABoundary(s, close + 3);
    }
  }

  lemma PastChar(t: Bytes, i: nat, params: Json, printer: Json -> Bytes)
    requires i < |t| && WellFormed(t[i..]) && !StartsEscaped(t[i..]) && !StartsOpen(t[i..])
    ensures var n := CharLen(t[i]);
            && 0 < n <= |t| - i && WellFormed(t[i + n..])
            && Render(t[i..], params, printer, i) == Then(t[i..i + n], Render(t[i + n..], params, printer, i + n))
  {
    var s, n := t[i..], CharLen(t[i]);
    RenderChar(s, n, params, printer, i);
    assert s[n..] == t[i + n..] && s[..n] == t[i..i + n];
  }

  /** The source's loop. `i` is always at a character boundary, and always advances. */
  method RenderTemplate(template: Bytes, params: Json, printer: Json -> Bytes) returns (r: Result<Bytes, RenderError>)
    requires WellFormed(template)
    ensures r == Render(template, params, printer, 0)
  {
    hide WellFormed, Trim, FindClose, Render, Lookup, Split;
    var out: Bytes := [];
    var i := 0;
    assert template[0..] == template;
    ThenNothing(Render(template, params, printer, 0));
    while i < |template|
      invariant 0 <= i <= |template| && WellFormed(template[i..])
      invariant Render(template, params, printer, 0) == Then(out, Render(template[i..], params, printer, i))
      decreases |template| - i
    {
      ghost var before := out;
      if template[i] == BACKSLASH && i + 2 < |template| && template[i + 1] == LEFT && template[i + 2] == LEFT {
        PastEscape(template, i, params, printer);
        out := out + OPEN;
        i := i + 3;
        ThenThen(before, OPEN, Render(template[i..], params, printer, i));
        continue;
      }
      if i + 1 < |template| && template[i] == LEFT && template[i + 1] == LEFT {
        PastExpression(template, i, params, printer);
        var start := i + 2;
        var close := FindClose(template[start..]);
        if close == |template| - start {
          return Err(Syntax(i, Unterminated));
        }
        var raw := template[start..start + close];
        var path := Trim(raw);
        if path == [] {
          return Err(Syntax(i, EmptyExpression));
        }
        var value := ResolvePath(params, path);
        if value.None? {
          return Err(MissingVariable(path, i));
        }
        out := out + RenderValue(value.value, printer);
        i := start + close + 2;
        ThenThen(before, RenderValue(value.value, printer), Render(template[i..], params, printer, i));
        continue;
      }
      PastChar(template, i, params, printer);
      var n := CharLen(template[i]);
      ThenThen(before, template[i..i + n], Render(template[i + n..], params, printer, i + n));
      out := out + template[i..i + n];
      i := i + n;
    }
    ThenAtTheEnd(out, template[i..], params, printer, i);
    return Ok(out);
  }

  lemma ThenAtTheEnd(out: Bytes, rest: Bytes, params: Json, printer: Json -> Bytes, at: nat)
    requires rest == []
    ensures Then(out, Render(rest, params, printer, at)) == Ok(out)
  {
    assert out + [] == out;
  }

  // ---- Escaping ----

  /** Each leftmost "{{" written as "\{{". */
  function Escape(s: Bytes): Bytes {
    if s == [] then []
    else if StartsOpen(s) then ESCAPED + Escape(s[2..])
    else [s[0]] + Escape(s[1..])
  }

  /** The text ends in a backslash, or in a brace that no earlier one pairs with. */
  predicate EndsOpen(s: Bytes) {
    if s == [] then false
    else if StartsOpen(s) then EndsOpen(s[2..])
    else if |s| == 1 then s[0] == LEFT || s[0] == BACKSLASH
    else EndsOpen(s[1..])
  }

  lemma EscapeStart(s: Bytes)
    requires s != []
    ensures Escape(s) != [] && (Escape(s)[0] == LEFT <==> s[0] == LEFT && !StartsOpen(s))
    ensures Escape(s)[0] == LEFT ==> if |s| == 1 then Escape(s) == [LEFT] else |Escape(s)| > 1 && Escape(s)[1] != LEFT
  {
    if !StartsOpen(s) && s[0] == LEFT && |s| > 1 {
      assert s[1..][0] == s[1] != LEFT;
    }
  }

  /** An escaped literal renders to itself, if nothing follows it or it does not end open. */
  lemma {:induction false} EscapedLiteral(t: Bytes, rest: Bytes, params: Json, printer: Json -> Bytes, at: nat)
    requires rest == [] || !EndsOpen(t)
    ensures Render(Escape(t) + rest, params, printer, at) == Then(t, Render(rest, params, printer, at + |Escape(t)|))
    decreases |t|
  {
    hide Render;
    if t == [] {
      assert Escape(t) + rest == rest;
      ThenNothing(Render(rest, params, printer, at));
    } else if StartsOpen(t) {
      EscapedLiteral(t[2..], rest, params, printer, at + 3);
      EscapedOpen(t[2..], rest, params, printer, at);
      assert t == OPEN + t[2..];
    } else {
      OpensNothing(t, rest);
      EscapedLiteral(t[1..], rest, params, printer, at + 1);
      EscapedByte(t[0], t[1..], rest, params, printer, at);
      assert t == [t[0]] + t[1..];
    }
  }

  lemma RenderAtEscape(s: Bytes, params: Json, printer: Json -> Bytes, at: nat)
    requires StartsEscaped(s)
    ensures Render(s, params, printer, at) == Then(OPEN, Render(s[3..], params, printer, at + 3))
  {
    hide FindClose, Expression;
  }

  lemma AfterEscape(a: Bytes, rest: Bytes)
    ensures var s := (ESCAPED + a) + rest; StartsEscaped(s) && s[3..] == a + rest
  {
  }

  lemma EscapedOpen(t: Bytes, rest: Bytes, params: Json, printer: Json -> Bytes, at: nat)
    requires Render(Escape(t) + rest, params, printer, at + 3) ==
               Then(t, Render(rest, params, printer, at + 3 + |Escape(t)|))
    ensures Render((ESCAPED + Escape(t)) + rest, params, printer, at) ==
              Then(OPEN + t, Render(rest, params, printer, at + 3 + |Escape(t)|))
  {
    hide Escape, Render;
    AfterEscape(Escape(t), rest);
    RenderAtEscape((ESCAPED + Escape(t)) + rest, params, printer, at);
    ThenThen(OPEN, t, Render(rest, params, printer, at + 3 + |Escape(t)|));
  }

  lemma EscapedByte(b: Byte, t: Bytes, rest: Bytes, params: Json, printer: Json -> Bytes, at: nat)
    requires var s := [b] + (Escape(t) + rest); !StartsEscaped(s) && !StartsOpen(s)
    requires Render(Escape(t) + rest, params, printer, at + 1) ==
               Then(t, Render(rest, params, printer, at + 1 + |Escape(t)|))
    ensures Render(([b] + Escape(t)) + rest, params, printer, at) ==
              Then([b] + t, Render(rest, params, printer, at + 1 + |Escape(t)|))
  {
    var s := ([b] + Escape(t)) + rest;
    assert s == [b] + (Escape(t) + rest);
    assert s[1..] == Escape(t) + rest;
    ThenThen([b], t, Render(rest, params, printer, at + 1 + |Escape(t)|));
  }

  lemma ThenNothing(r: Result<Bytes, RenderError>)
    ensures Then([], r) == r
  {
    if r.Ok? {
      assert [] + r.value == r.value;
    }
  }

  lemma OpensNothing(t: Bytes, rest: Bytes)
    requires t != [] && !StartsOpen(t) && (rest == [] || !EndsOpen(t))
    ensures var s := [t[0]] + (Escape(t[1..]) + rest); !StartsEscaped(s) && !StartsOpen(s)
  {
    var s := [t[0]] + (Escape(t[1..]) + rest);
    if |t| > 1 {
      EscapeStart(t[1..]);
      assert s[1] == Escape(t[1..])[0];
      if |t| == 2 && t[1] == LEFT {
        assert EndsOpen(t[1..]) && s == [t[0], LEFT];
      } else if s[1] == LEFT {
        assert s[2] == Escape(t[1..])[1];
      }
    } else {
      assert s == [t[0]] + rest;
    }
  }

  /** For every text: escaped, it renders to itself. */
  lemma EscapeRoundTrip(s: Bytes, params: Json, printer: Json -> Bytes)
    ensures Render(Escape(s), params, printer, 0) == Ok(s)
  {
    EscapedLiteral(s, [], params, printer, 0);
    assert Escape(s) + [] == Escape(s) && s + [] == s;
  }

  // ---- Printing a template from its parts ----

  datatype Piece = Literal(text: Bytes) | Variable(left: Bytes, path: Bytes, right: Bytes)

  function Printed(p: Piece): Bytes {
    match p
    case Literal(text) => Escape(text)
    case Variable(left, path, right) => OPEN + (left + path + right) + CLOSE
  }

  function PrintedAll(pieces: seq<Piece>): Bytes {
    if pieces == [] then [] else Printed(pieces[0]) + PrintedAll(pieces[1..])
  }

  ghost predicate Padding(s: Bytes) {
    forall k | 0 <= k < |s| :: AsciiSpace(s[k])
  }

  ghost predicate PrintablePath(p: Piece) {
    p.Variable? ==> p.path != [] && Trimmed(p.path) && RIGHT !in p.path && Padding(p.left) && Padding(p.right)
  }

  /** No literal but the last ends open, and no path holds a closing brace. */
  ghost predicate Printable(pieces: seq<Piece>) {
    && (forall i | 0 <= i < |pieces| :: PrintablePath(pieces[i]))
    && (forall i | 0 <= i < |pieces| - 1 :: pieces[i].Literal? ==> !EndsOpen(pieces[i].text))
  }

  /** What the parts stand for: their texts and values, or the first variable that is missing. */
  function Meaning(pieces: seq<Piece>, params: Json, printer: Json -> Bytes, at: nat): Result<Bytes, RenderError> {
    if pieces == [] then Ok([])
    else
      var rest := Meaning(pieces[1..], params, printer, at + |Printed(pieces[0])|);
      match pieces[0]
      case Literal(text) => Then(text, rest)
      case Variable(_, path, _) =>
        match Lookup(params, Split(path, DOT))
        case None => Err(MissingVariable(path, at))
        case Some(v) =>
          // A string without quotes, and every other value as JSON.
          Then(match v case Str(text) => text case Null => [110, 117, 108, 108] case _ => printer(v), rest)
  }

  lemma FindCloseAfter(a: Bytes, rest: Bytes)
    requires RIGHT !in a
    ensures FindClose(a + CLOSE + rest) == |a|
  {
    hide FindClose;
    var s := a + CLOSE + rest;
    assert forall k: nat | k < |a| :: s[k] == a[k];
    assert ClosesAt(s, |a|);
  }

  lemma AroundExpression(raw: Bytes, rest: Bytes)
    ensures var s := (OPEN + raw + CLOSE) + rest;
            && |s| >= 2 && StartsOpen(s) && s[2..] == raw + CLOSE + rest
            && s[2..2 + |raw|] == raw && s[|raw| + 4..] == rest
  {
  }

  /** What stands between the braces is the expression, if it holds no closing brace. */
  lemma RenderExpression(raw: Bytes, rest: Bytes, params: Json, printer: Json -> Bytes, at: nat)
    requires RIGHT !in raw
    ensures Render((OPEN + raw + CLOSE) + rest, params, printer, at) ==
              match Expression(raw, params, printer, at)
              case Err(e) => Err(e)
              case Ok(text) => Then(text, Render(rest, params, printer, at + |raw| + 4))
  {
    hide Render, Expression, FindClose;
    AroundExpression(raw, rest);
    FindCloseAfter(raw, rest);
    RenderAtOpen((OPEN + raw + CLOSE) + rest, params, printer, at);
  }

  lemma PrintedVariable(p: Piece, rest: Bytes, params: Json, printer: Json -> Bytes, at: nat)
    requires p.Variable? && PrintablePath(p)
    ensures Render(Printed(p) + rest, params, printer, at) ==
              match Lookup(params, Split(p.path, DOT))
              case None => Err(MissingVariable(p.path, at))
              case Some(v) => Then(RenderValue(v, printer), Render(rest, params, printer, at + |Printed(p)|))
  {
    hide Render, Lookup, Split, Trim;
    RenderExpression(p.left + p.path + p.right, rest, params, printer, at);
    TrimPadded(p.left, p.path, p.right);
  }

  lemma PrintableTail(pieces: seq<Piece>)
    requires pieces != [] && Printable(pieces)
    ensures Printable(pieces[1..]) && PrintablePath(pieces[0])
    ensures pieces[0].Literal? ==> PrintedAll(pieces[1..]) == [] || !EndsOpen(pieces[0].text)
  {
    hide EndsOpen, PrintablePath;
    var rest := pieces[1..];
    assert forall i | 0 <= i < |rest| :: rest[i] == pieces[i + 1];
  }

  lemma RenderFirst(pieces: seq<Piece>, params: Json, printer: Json -> Bytes, at: nat)
    requires pieces != [] && Printable(pieces)
    requires Render(PrintedAll(pieces[1..]), params, printer, at + |Printed(pieces[0])|)
          == Meaning(pieces[1..], params, printer, at + |Printed(pieces[0])|)
    ensures Render(Printed(pieces[0]) + PrintedAll(pieces[1..]), params, printer, at) == Meaning(pieces, params, printer, at)
  {
    hide EndsOpen, Escape, Lookup, Split, Printable, PrintablePath, Render, PrintedAll;
    PrintableTail(pieces);
    match pieces[0]
    case Literal(text) => EscapedLiteral(text, PrintedAll(pieces[1..]), params, printer, at);
    case Variable(_, _, _) => PrintedVariable(pieces[0], PrintedAll(pieces[1..]), params, printer, at);
  }

  lemma PrintedFirst(pieces: seq<Piece>)
    requires pieces != []
    ensures PrintedAll(pieces) == Printed(pieces[0]) + PrintedAll(pieces[1..])
  {
    hide Printed;
  }

  lemma NothingRenders(params: Json, printer: Json -> Bytes, at: nat)
    ensures Render(PrintedAll([]), params, printer, at) == Meaning([], params, printer, at)
  {
  }

  /** A printed list of literals and variables renders to what it stands for. */
  lemma {:induction false} PrintedTemplateRenders(pieces: seq<Piece>, params: Json, printer: Json -> Bytes, at: nat)
    requires Printable(pieces)
    ensures Render(PrintedAll(pieces), params, printer, at) == Meaning(pieces, params, printer, at)
    decreases |pieces|
  {
    hide *;
    if pieces == [] {
      NothingRenders(params, printer, at);
    } else {
      PrintableTail(pieces);
      PrintedTemplateRenders(pieces[1..], params, printer, at + |Printed(pieces[0])|);
      RenderFirst(pieces, params, printer, at);
      PrintedFirst(pieces);
    }
  }

  /** Such a template fails exactly if some variable is missing. */
  lemma {:induction false} RendersIfAllFound(pieces: seq<Piece>, params: Json, printer: Json -> Bytes, at: nat)
    ensures Meaning(pieces, params, printer, at).Ok? <==>
              forall i | 0 <= i < |pieces| && pieces[i].Variable? :: Lookup(params, Split(pieces[i].path, DOT)).Some?
    decreases |pieces|
  {
    hide Lookup, Split, Escape;
    if pieces != [] {
      RendersIfAllFound(pieces[1..], params, printer, at + |Printed(pieces[0])|);
      assert forall i | 0 < i < |pieces| :: pieces[i] == pieces[1..][i - 1];
    }
  }

  /** Why a literal must not end open. Before a variable, a lone brace joins its name ... */
  lemma BraceJoinsTheName(p: Piece, rest: Bytes, params: Json, printer: Json -> Bytes, at: nat)
    requires p.Variable? && PrintablePath(p)
    ensures Render([LEFT] + (Printed(p) + rest), params, printer, at) ==
              match Expression([LEFT] + (p.left + p.path + p.right), params, printer, at)
              case Err(e) => Err(e)
              case Ok(text) => Then(text, Render(rest, params, printer, at + 1 + |Printed(p)|))
  {
    hide Expression, Render;
    var raw := [LEFT] + (p.left + p.path + p.right);
    assert [LEFT] + (Printed(p) + rest) == (OPEN + raw + CLOSE) + rest;
    RenderExpression(raw, rest, params, printer, at);
  }

  /** ... and a backslash escapes its opening: the variable is copied as text. */
  lemma BackslashEscapesTheVariable(p: Piece, rest: Bytes, params: Json, printer: Json -> Bytes, at: nat)
    requires p.Variable?
    ensures Render([BACKSLASH] + (Printed(p) + rest), params, printer, at) ==
              Then(OPEN, Render((p.left + p.path + p.right) + CLOSE + rest, params, printer, at + 3))
  {
    var s := [BACKSLASH] + (Printed(p) + rest);
    assert StartsEscaped(s);
    assert s[3..] == (p.left + p.path + p.right) + CLOSE + rest;
  }

  /** An opening that is never closed is an error at its offset, and so is one that closes on
      nothing but white space. */
  lemma SyntaxErrors(text: Bytes, raw: Bytes, rest: Bytes, params: Json, printer: Json -> Bytes)
    requires !EndsOpen(text) && RIGHT !in raw
    ensures Render(Escape(text) + (OPEN + raw), params, printer, 0) == Err(Syntax(|Escape(text)|, Unterminated))
    ensures Padding(raw) ==>
              Render(Escape(text) + ((OPEN + raw + CLOSE) + rest), params, printer, 0)
              == Err(Syntax(|Escape(text)|, EmptyExpression))
  {
    hide Render, EndsOpen, Escape, Trim;
    var at := |Escape(text)|;
    EscapedLiteral(text, OPEN + raw, params, printer, 0);
    Unclosed(raw, params, printer, at);
    if Padding(raw) {
      EscapedLiteral(text, (OPEN + raw + CLOSE) + rest, params, printer, 0);
      RenderExpression(raw, rest, params, printer, at);
      TrimBlanks(raw);
    }
  }

  lemma Unclosed(raw: Bytes, params: Json, printer: Json -> Bytes, at: nat)
    requires RIGHT !in raw
    ensures Render(OPEN + raw, params, printer, at) == Err(Syntax(at, Unterminated))
  {
    hide Render, FindClose, Expression;
    var s := OPEN + raw;
    assert s[2..] == raw;
    assert forall k: nat :: !ClosesAt(raw, k);
    RenderAtOpen(s, params, printer, at);
  }
}
