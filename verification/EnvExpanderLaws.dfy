/** Laws of the expansion: the closing brace, concatenation, escaping, and the three forms of a reference. */
module EnvExpanderLaws {
  import opened Prelude
  import opened EnvExpander

  // ----- The closing brace -----

  /** The brace found is the first position of depth 0, and that describes it completely. */
  lemma {:induction false} CloseFromIsClosingBrace(s: string, pos: nat, j: nat)
    requires pos <= j <= |s|
    requires forall k | pos <= k <= j :: Depth(s, pos, k) > 0
    ensures IsClosingBrace(s, pos, CloseFrom(s, j, Depth(s, pos, j)))
    decreases |s| - j
  {
    if j < |s| && !(s[j] == '}' && Depth(s, pos, j) == 1) {
      assert Depth(s, pos, j + 1) > 0;
      CloseFromIsClosingBrace(s, pos, j + 1);
    }
  }

  lemma ClosingBraceIsUnique(s: string, pos: nat, end: int)
    requires pos <= |s|
    ensures IsClosingBrace(s, pos, end) <==> end == CloseFrom(s, pos, 1)
  {
    CloseFromIsClosingBrace(s, pos, pos);
  }

  // ----- Concatenation -----

  /** The scan of s from i comes to a `$` that is its last character. */
  predicate EndsOnBareDollar(env: Env, s: string, i: nat)
    requires i <= |s|
    decreases |s| - i
  {
    if i == |s| then false
    else if i == |s| - 1 && s[i] == '$' then true
    else
      var p := PieceAt(env, s, i);
      p.Ok? && EndsOnBareDollar(env, s, p.value.next)
  }

  function ShiftedError(error: ExpandError, offset: nat): ExpandError
  {
    match error
    case Unclosed(start) => Unclosed(start + offset)
    case EmptyExpression(start) => EmptyExpression(start + offset)
    case Nested(start) => Nested(start + offset)
    case EmptyName(start) => EmptyName(start + offset)
    case Missing(_, _) => error
    case NotSet(_) => error
  }

  function Shifted(r: Result<string>, offset: nat): Result<string>
  {
    if r.Ok? then r else Err(ShiftedError(r.error, offset))
  }

  lemma {:induction false} CloseFromIsLocal(a: string, b: string, j: nat, depth: nat)
    requires j <= |a| && depth >= 1
    ensures CloseFrom(a, j, depth) != -1 ==> CloseFrom(a + b, j, depth) == CloseFrom(a, j, depth)
    decreases |a| - j
  {
    if j < |a| {
      assert (a + b)[j] == a[j];
      if a[j] == '{' {
        CloseFromIsLocal(a, b, j + 1, depth + 1);
      } else if a[j] != '}' {
        CloseFromIsLocal(a, b, j + 1, depth);
      } else if depth > 1 {
        CloseFromIsLocal(a, b, j + 1, depth - 1);
      }
    }
  }

  lemma {:induction false} CloseFromShifts(a: string, b: string, j: nat, depth: nat)
    requires j <= |b| && depth >= 1
    ensures CloseFrom(a + b, |a| + j, depth) ==
            if CloseFrom(b, j, depth) == -1 then -1 else |a| + CloseFrom(b, j, depth)
    decreases |b| - j
  {
    if j < |b| {
      assert (a + b)[|a| + j] == b[j];
      if b[j] == '{' {
        CloseFromShifts(a, b, j + 1, depth + 1);
      } else if b[j] != '}' {
        CloseFromShifts(a, b, j + 1, depth);
      } else if depth > 1 {
        CloseFromShifts(a, b, j + 1, depth - 1);
      }
    }
  }

  /** A piece that is not an unclosed reference or a last bare dollar is the same whatever follows. */
  lemma PieceIsLocal(env: Env, a: string, b: string, i: nat)
    requires i < |a|
    requires !(i == |a| - 1 && a[i] == '$')
    requires PieceAt(env, a, i).Err? ==> !PieceAt(env, a, i).error.Unclosed?
    ensures PieceAt(env, a + b, i) == PieceAt(env, a, i)
  {
    assert (a + b)[i] == a[i];
    if i + 1 < |a| {
      assert (a + b)[i + 1] == a[i + 1];
      if a[i] == '$' && a[i + 1] == '{' {
        CloseFromIsLocal(a, b, i + 2, 1);
        var end := CloseFrom(a, i + 2, 1);
        assert end != -1;
        assert (a + b)[i + 2..end] == a[i + 2..end];
      }
    }
  }

  /** The piece at |a| + i of a + b, given the piece at i of b. */
  function ShiftedPiece(p: Result<Piece>, offset: nat): Result<Piece>
  {
    if p.Ok? then Ok(Piece(p.value.text, offset + p.value.next)) else Err(ShiftedError(p.error, offset))
  }

  function ReferencePiece(r: Result<string>, end: nat): Result<Piece>
  {
    if r.Ok? then Ok(Piece(r.value, end + 1)) else Err(r.error)
  }

  lemma PieceOfReference(env: Env, s: string, i: nat, expr: string)
    requires i + 1 < |s| && s[i] == '$' && s[i + 1] == '{'
    requires CloseFrom(s, i + 2, 1) != -1 && expr == s[i + 2..CloseFrom(s, i + 2, 1)]
    ensures PieceAt(env, s, i) == ReferencePiece(ExpandExpr(env, expr, i), CloseFrom(s, i + 2, 1))
  {
  }

  lemma ReferenceShifts(env: Env, a: string, b: string, i: nat)
    requires i + 1 < |b| && b[i] == '$' && b[i + 1] == '{'
    ensures PieceAt(env, a + b, |a| + i) == ShiftedPiece(PieceAt(env, b, i), |a|)
  {
    var s, at := a + b, |a| + i;
    assert s[at] == '$' && s[at + 1] == '{';
    CloseFromShifts(a, b, i + 2, 1);
    var end := CloseFrom(b, i + 2, 1);
    assert CloseFrom(s, at + 2, 1) == if end == -1 then -1 else |a| + end;
    if end != -1 {
      SliceShifts(a, b, i + 2, end);
      ShiftedReference(env, s, at, b, i, b[i + 2..end], |a|);
    }
  }

  lemma ShiftedReference(env: Env, s: string, at: nat, b: string, i: nat, expr: string, offset: nat)
    requires at == offset + i && at + 1 < |s| && i + 1 < |b|
    requires s[at] == b[i] == '$' && s[at + 1] == b[i + 1] == '{'
    requires CloseFrom(b, i + 2, 1) != -1 && CloseFrom(s, at + 2, 1) == offset + CloseFrom(b, i + 2, 1)
    requires s[at + 2..CloseFrom(s, at + 2, 1)] == expr == b[i + 2..CloseFrom(b, i + 2, 1)]
    ensures PieceAt(env, s, at) == ShiftedPiece(PieceAt(env, b, i), offset)
  {
    PieceOfReference(env, b, i, expr);
    PieceOfReference(env, s, at, expr);
    ExpandExprShifts(env, expr, i, offset);
  }

  lemma SliceShifts(a: string, b: string, lo: nat, hi: nat)
    requires lo <= hi <= |b|
    ensures (a + b)[|a| + lo..|a| + hi] == b[lo..hi]
  {
  }

  lemma ExpandExprShifts(env: Env, expr: string, start: nat, offset: nat)
    ensures ExpandExpr(env, expr, offset + start) == Shifted(ExpandExpr(env, expr, start), offset)
  {
  }

  lemma PieceShifts(env: Env, a: string, b: string, i: nat)
    requires i < |b|
    ensures PieceAt(env, a + b, |a| + i) == ShiftedPiece(PieceAt(env, b, i), |a|)
  {
    assert (a + b)[|a| + i] == b[i];
    if i + 1 < |b| {
      assert (a + b)[|a| + i + 1] == b[i + 1];
      if b[i] == '$' && b[i + 1] == '{' {
        ReferenceShifts(env, a, b, i);
      }
    }
  }

  /** The pieces a scan would find at each position. */
  ghost function PiecesOf(env: Env, s: string): seq<Result<Piece>>
  {
    seq(|s|, i requires 0 <= i < |s| => PieceAt(env, s, i))
  }

  ghost predicate GoForward(pieces: seq<Result<Piece>>)
  {
    forall i | 0 <= i < |pieces| && pieces[i].Ok? :: i < pieces[i].value.next <= |pieces|
  }

  ghost function Walk(pieces: seq<Result<Piece>>, i: nat): Result<string>
    requires i <= |pieces| && GoForward(pieces)
    decreases |pieces| - i
  {
    if i == |pieces| then Ok("")
    else
      match pieces[i]
      case Err(error) => Err(error)
      case Ok(piece) => Prepended(piece.text, Walk(pieces, piece.next))
  }

  lemma {:induction false} ExpandIsWalk(env: Env, s: string, i: nat)
    requires i <= |s|
    ensures GoForward(PiecesOf(env, s)) && ExpandFrom(env, s, i) == Walk(PiecesOf(env, s), i)
    decreases |s| - i
  {
    if i < |s| && PieceAt(env, s, i).Ok? {
      ExpandIsWalk(env, s, PieceAt(env, s, i).value.next);
    }
  }

  /** The pieces are found again, `offset` further on. */
  ghost predicate AreMoved(pieces: seq<Result<Piece>>, moved: seq<Result<Piece>>, offset: nat)
  {
    && |moved| == offset + |pieces|
    && forall k | 0 <= k < |pieces| :: moved[offset + k] == ShiftedPiece(pieces[k], offset)
  }

  lemma {:induction false} WalkShifts(pieces: seq<Result<Piece>>, moved: seq<Result<Piece>>, i: nat, offset: nat)
    requires GoForward(pieces) && GoForward(moved) && AreMoved(pieces, moved, offset) && i <= |pieces|
    ensures Walk(moved, offset + i) == Shifted(Walk(pieces, i), offset)
    decreases |pieces| - i
  {
    if i < |pieces| && pieces[i].Ok? {
      WalkShifts(pieces, moved, pieces[i].value.next, offset);
    }
  }

  lemma PiecesShift(env: Env, a: string, b: string)
    ensures AreMoved(PiecesOf(env, b), PiecesOf(env, a + b), |a|)
  {
    var pieces, moved := PiecesOf(env, b), PiecesOf(env, a + b);
    forall k: nat | k < |b|
      ensures moved[|a| + k] == ShiftedPiece(pieces[k], |a|)
    {
      PieceShifts(env, a, b, k);
    }
  }

  lemma ExpandShifts(env: Env, a: string, b: string)
    ensures ExpandFrom(env, a + b, |a|) == Shifted(Expand(env, b), |a|)
  {
    PiecesShift(env, a, b);
    ExpandIsWalk(env, b, 0);
    ExpandIsWalk(env, a + b, |a|);
    WalkShifts(PiecesOf(env, b), PiecesOf(env, a + b), 0, |a|);
  }

  lemma {:induction false} ExpandSplits(env: Env, a: string, b: string, i: nat)
    requires i <= |a| && ExpandFrom(env, a, i).Ok? && !EndsOnBareDollar(env, a, i)
    ensures ExpandFrom(env, a + b, i) == Prepended(ExpandFrom(env, a, i).value, ExpandFrom(env, a + b, |a|))
    decreases |a| - i
  {
    if i < |a| {
      PieceIsLocal(env, a, b, i);
      var piece := PieceAt(env, a, i).value;
      ExpandSplits(env, a, b, piece.next);
      PrependedTwice(piece.text, ExpandFrom(env, a, piece.next).value, ExpandFrom(env, a + b, |a|));
    } else {
      PrependedNothing(ExpandFrom(env, a + b, |a|));
    }
  }

  /**
   When a expands and its scan does not end on a bare `$`, a + b expands exactly when b does, to the
   two expansions one after the other, and fails with the error of b at its place in a + b.
   */
  lemma ExpandConcatenates(env: Env, a: string, b: string)
    requires Expand(env, a).Ok? && !EndsOnBareDollar(env, a, 0)
    ensures Expand(env, a + b) == Prepended(Expand(env, a).value, Shifted(Expand(env, b), |a|))
  {
    ExpandSplits(env, a, b, 0);
    ExpandShifts(env, a, b);
  }

  lemma {:induction false} BareDollarSwallows(env: Env, a: string, i: nat)
    requires i <= |a| && ExpandFrom(env, a, i).Ok? && EndsOnBareDollar(env, a, i)
    ensures ExpandFrom(env, a + "$", i) == ExpandFrom(env, a, i)
    decreases |a| - i
  {
    if i == |a| - 1 && a[i] == '$' {
      assert (a + "$")[i] == '$' && (a + "$")[i + 1] == '$';
      assert ExpandFrom(env, a + "$", i + 2) == Ok("") == ExpandFrom(env, a, i + 1);
    } else {
      PieceIsLocal(env, a, "$", i);
      BareDollarSwallows(env, a, PieceAt(env, a, i).value.next);
    }
  }

  /** Where a expands, no bare `$` at the end of its scan is exactly what concatenation asks for. */
  lemma ConcatenationIff(env: Env, a: string)
    requires Expand(env, a).Ok?
    ensures (forall b :: Expand(env, a + b) == Prepended(Expand(env, a).value, Shifted(Expand(env, b), |a|)))
            <==> !EndsOnBareDollar(env, a, 0)
  {
    if EndsOnBareDollar(env, a, 0) {
      BareDollarSwallows(env, a, 0);
      DollarExpandsToItself(env);
      assert Expand(env, a + "$") != Prepended(Expand(env, a).value, Shifted(Expand(env, "$"), |a|));
    } else {
      forall b
        ensures Expand(env, a + b) == Prepended(Expand(env, a).value, Shifted(Expand(env, b), |a|))
      {
        ExpandConcatenates(env, a, b);
      }
    }
  }

  lemma DollarExpandsToItself(env: Env)
    ensures Expand(env, "$") == Ok("$")
  {
    assert PieceAt(env, "$", 0) == Ok(Piece("$", 1)) && ExpandFrom(env, "$", 1) == Ok("");
    assert "$" + "" == "$";
  }

  /** An error other than an unclosed reference is final: nothing that follows changes it. */
  lemma {:induction false} ErrorsAreFinal(env: Env, a: string, b: string, i: nat)
    requires i <= |a| && ExpandFrom(env, a, i).Err? && !ExpandFrom(env, a, i).error.Unclosed?
    ensures ExpandFrom(env, a + b, i) == ExpandFrom(env, a, i)
    decreases |a| - i
  {
    PieceIsLocal(env, a, b, i);
    var p := PieceAt(env, a, i);
    if p.Ok? {
      ErrorsAreFinal(env, a, b, p.value.next);
    }
  }

  // ----- Escaping -----

  function Escaped(c: char): string { if c == '$' then "$$" else [c] }

  function Doubled(s: string): string
  {
    if s == "" then "" else Escaped(s[0]) + Doubled(s[1..])
  }

  lemma EscapedCharacter(env: Env, c: char, rest: string)
    ensures Expand(env, Escaped(c) + rest) == Prepended([c], Shifted(Expand(env, rest), |Escaped(c)|))
  {
    var e := Escaped(c);
    assert ExpandFrom(env, e, |e|) == Ok("");
    assert PieceAt(env, e, 0) == Ok(Piece([c], |e|)) && [c] + "" == [c];
    ExpandConcatenates(env, e, rest);
  }

  /** Doubling every `$` and expanding gives the string back, whatever follows it. */
  lemma {:induction false} DoublingEscapes(env: Env, s: string, b: string)
    ensures Expand(env, Doubled(s) + b) == Prepended(s, Shifted(Expand(env, b), |Doubled(s)|))
  {
    if s == "" {
      assert "" + b == b;
      PrependedNothing(Expand(env, b));
    } else {
      var e, rest := Escaped(s[0]), s[1..];
      assert Doubled(s) + b == e + (Doubled(rest) + b);
      EscapedCharacter(env, s[0], Doubled(rest) + b);
      DoublingEscapes(env, rest, b);
      ShiftedTwice(rest, Expand(env, b), |Doubled(rest)|, |e|);
      PrependedTwice([s[0]], rest, Shifted(Expand(env, b), |Doubled(s)|));
      assert [s[0]] + rest == s;
    }
  }

  lemma DoublingRoundTrips(env: Env, s: string)
    ensures Expand(env, Doubled(s)) == Ok(s)
  {
    DoublingEscapes(env, s, "");
    assert Doubled(s) + "" == Doubled(s) && s + "" == s;
  }

  // ----- References -----

  /** Braces that close only what they open. */
  predicate IsBalanced(expr: string) { CloseFrom(expr + "}", 0, 1) == |expr| }

  function Reference(expr: string): string { "${" + expr + "}" }

  lemma ReferenceExpands(env: Env, expr: string)
    requires IsBalanced(expr)
    ensures Expand(env, Reference(expr)) == ExpandExpr(env, expr, 0)
    ensures !EndsOnBareDollar(env, Reference(expr), 0)
  {
    var s := Reference(expr);
    assert s == "${" + (expr + "}");
    CloseFromShifts("${", expr + "}", 0, 1);
    assert s[2..|expr| + 2] == expr;
    assert ExpandFrom(env, s, |s|) == Ok("");
    assert PieceAt(env, s, 0).Ok? ==> PieceAt(env, s, 0).value.next == |s|;
    if ExpandExpr(env, expr, 0).Ok? {
      var value := ExpandExpr(env, expr, 0).value;
      assert value + "" == value;
    }
  }

  /**
   A reference is replaced by its value and the scan goes on after it: a value holding `$` or `${` is
   not looked at again, nor does it join with what stands around it.
   */
  lemma ValuesAreNotRescanned(env: Env, a: string, expr: string, b: string)
    requires Expand(env, a).Ok? && !EndsOnBareDollar(env, a, 0)
    requires IsBalanced(expr) && ExpandExpr(env, expr, 0).Ok?
    ensures Expand(env, a + (Reference(expr) + b)) ==
            Prepended(
              Expand(env, a).value + ExpandExpr(env, expr, 0).value,
              Shifted(Expand(env, b), |a + Reference(expr)|))
  {
    ReferenceExpands(env, expr);
    ThreeParts(env, a, Reference(expr), b);
  }

  lemma ThreeParts(env: Env, a: string, middle: string, b: string)
    requires Expand(env, a).Ok? && !EndsOnBareDollar(env, a, 0)
    requires Expand(env, middle).Ok? && !EndsOnBareDollar(env, middle, 0)
    ensures Expand(env, a + (middle + b)) ==
            Prepended(Expand(env, a).value + Expand(env, middle).value, Shifted(Expand(env, b), |a + middle|))
  {
    ExpandConcatenates(env, a, middle + b);
    ExpandConcatenates(env, middle, b);
    ShiftedTwice(Expand(env, middle).value, Expand(env, b), |middle|, |a|);
    PrependedTwice(Expand(env, a).value, Expand(env, middle).value, Shifted(Expand(env, b), |a + middle|));
  }

  lemma ShiftedTwice(text: string, r: Result<string>, offset: nat, further: nat)
    ensures Shifted(Prepended(text, Shifted(r, offset)), further) == Prepended(text, Shifted(r, further + offset))
  {
  }

  // ----- The three forms -----

  lemma OccurrenceSkips(prefix: string, rest: string, pattern: string, j: nat)
    requires pattern != "" && pattern[0] !in prefix
    ensures OccursAt(prefix + rest, pattern, j) <==> j >= |prefix| && OccursAt(rest, pattern, j - |prefix|)
  {
    var s := prefix + rest;
    if j + |pattern| <= |s| {
      var window := s[j..j + |pattern|];
      if j < |prefix| {
        assert window[0] == prefix[j];
      } else {
        assert window == rest[j - |prefix|..j - |prefix| + |pattern|];
      }
    }
  }

  /** Searching for a pattern skips a prefix its first character does not occur in. */
  lemma IndexSkips(prefix: string, rest: string, pattern: string)
    requires pattern != "" && pattern[0] !in prefix
    ensures IndexFrom(prefix + rest, pattern, 0) ==
            if IndexFrom(rest, pattern, 0) == -1 then -1 else |prefix| + IndexFrom(rest, pattern, 0)
  {
    var s := prefix + rest;
    forall j: nat | j <= |s|
      ensures OccursAt(s, pattern, j) <==> j >= |prefix| && OccursAt(rest, pattern, j - |prefix|)
    {
      OccurrenceSkips(prefix, rest, pattern, j);
    }
    IndexFromIsFirst(rest, pattern, 0);
    var found := IndexFrom(rest, pattern, 0);
    FirstIndexIsUnique(s, pattern, if found == -1 then -1 else |prefix| + found);
  }

  lemma {:induction false} BracesSkip(prefix: string, rest: string, j: nat)
    requires '{' !in prefix && '}' !in prefix && j <= |prefix|
    ensures CloseFrom(prefix + rest, j, 1) == CloseFrom(prefix + rest, |prefix|, 1)
    decreases |prefix| - j
  {
    if j < |prefix| {
      assert (prefix + rest)[j] == prefix[j];
      BracesSkip(prefix, rest, j + 1);
    }
  }

  lemma PrefixKeepsBalance(prefix: string, word: string)
    requires '{' !in prefix && '}' !in prefix && IsBalanced(word)
    ensures IsBalanced(prefix + word)
  {
    BracesSkip(prefix, word + "}", 0);
    CloseFromShifts(prefix, word + "}", 0, 1);
    assert (prefix + word) + "}" == prefix + (word + "}");
  }

  /** A name without braces, `$` or `:`. */
  predicate IsPlain(name: string) { name != "" && '{' !in name && '}' !in name && '$' !in name && ':' !in name }

  /** `${NAME}` is the value, which may be empty but must be set. */
  lemma PlainReference(env: Env, name: string)
    requires IsPlain(name)
    ensures Expand(env, Reference(name)) == if name in env then Ok(env[name]) else Err(NotSet(name))
  {
    assert IsBalanced("");
    PrefixKeepsBalance(name, "");
    assert name + "" == name;
    ReferenceExpands(env, name);
    IndexSkips(name, "", "${");
    IndexSkips(name, "", ":-");
    IndexSkips(name, "", ":?");
  }

  /** `${NAME:-word}` is the value unless that is empty or unset, then the word. */
  lemma DefaultReference(env: Env, name: string, word: string)
    requires IsPlain(name) && IsBalanced(word) && IndexFrom(word, "${", 0) == -1
    ensures Expand(env, Reference(name + ":-" + word)) ==
            Ok(if name in env && env[name] != "" then env[name] else word)
  {
    PrefixKeepsBalance(name + ":-", word);
    ReferenceExpands(env, name + ":-" + word);
    IndexSkips(name + ":-", word, "${");
    ParseDefault(name, word);
  }

  lemma ParseDefault(name: string, word: string)
    requires IsPlain(name)
    ensures ParseExpr(name + ":-" + word) == (name, word, Default)
  {
    var expr := name + ":-" + word;
    assert expr == name + (":-" + word) && OccursAt(":-" + word, ":-", 0);
    IndexSkips(name, ":-" + word, ":-");
    assert expr[..|name|] == name && expr[|name| + 2..] == word;
  }

  /**
   `${NAME:?message}` demands the value, as long as the message has no `:-`: that is looked for first,
   and a message holding one is split there, which makes its tail a default for an odd name.
   */
  lemma MustHaveReference(env: Env, name: string, message: string)
    requires IsPlain(name) && IsBalanced(message) && IndexFrom(message, "${", 0) == -1
    ensures var dash := IndexFrom(message, ":-", 0);
            var odd := name + ":?" + message[..Max(dash, 0)];
            Expand(env, Reference(name + ":?" + message)) ==
            if dash != -1 then Ok(if odd in env && env[odd] != "" then env[odd] else message[dash + 2..])
            else if name in env && env[name] != "" then Ok(env[name])
            else Err(Missing(name, message))
  {
    var expr := name + ":?" + message;
    PrefixKeepsBalance(name + ":?", message);
    ReferenceExpands(env, expr);
    IndexSkips(name + ":?", message, "${");
    ParseMustHave(name, message);
  }

  /** What the documented meaning of `${NAME:?message}` gives. */
  function Demanded(env: Env, name: string, message: string): Result<string>
  {
    if name in env && env[name] != "" then Ok(env[name]) else Err(Missing(name, message))
  }

  /** A demand has its documented meaning in every environment if and only if its message has no `:-`. */
  lemma DemandIsMetIff(name: string, message: string)
    requires IsPlain(name) && IsBalanced(message) && IndexFrom(message, "${", 0) == -1
    ensures (forall env :: Expand(env, Reference(name + ":?" + message)) == Demanded(env, name, message))
            <==> IndexFrom(message, ":-", 0) == -1
  {
    if IndexFrom(message, ":-", 0) == -1 {
      forall env
        ensures Expand(env, Reference(name + ":?" + message)) == Demanded(env, name, message)
      {
        MustHaveReference(env, name, message);
      }
    } else {
      MustHaveReference(map[], name, message);
      assert Expand(map[], Reference(name + ":?" + message)) != Demanded(map[], name, message);
    }
  }

  lemma ParseMustHave(name: string, message: string)
    requires IsPlain(name)
    ensures var dash := IndexFrom(message, ":-", 0);
            ParseExpr(name + ":?" + message) ==
            if dash != -1 then (name + ":?" + message[..dash], message[dash + 2..], Default)
              else (name, message, MustHave)
  {
    MustHaveIndices(name, message);
    var expr, dash := name + ":?" + message, IndexFrom(message, ":-", 0);
    if dash != -1 {
      SplitAtDash(name, message, dash);
      ParsedAtDash(expr, |name| + 2 + dash);
    } else {
      SplitAtQuestion(name, message);
      ParsedAtQuestion(expr, |name|);
    }
  }

  lemma ParsedAtDash(expr: string, at: nat)
    requires IndexFrom(expr, ":-", 0) == at
    ensures at + 2 <= |expr| && ParseExpr(expr) == (expr[..at], expr[at + 2..], Default)
  {
  }

  lemma ParsedAtQuestion(expr: string, at: nat)
    requires IndexFrom(expr, ":-", 0) == -1 && IndexFrom(expr, ":?", 0) == at
    ensures at + 2 <= |expr| && ParseExpr(expr) == (expr[..at], expr[at + 2..], MustHave)
  {
  }

  lemma SplitAtDash(name: string, message: string, dash: nat)
    requires dash + 2 <= |message|
    ensures var (expr, at) := (name + ":?" + message, |name| + 2 + dash);
            expr[..at] == name + ":?" + message[..dash] && expr[at + 2..] == message[dash + 2..]
  {
  }

  lemma SplitAtQuestion(name: string, message: string)
    ensures var expr := name + ":?" + message;
            expr[..|name|] == name && expr[|name| + 2..] == message
  {
  }

  lemma MustHaveIndices(name: string, message: string)
    requires IsPlain(name)
    ensures var (expr, dash) := (name + ":?" + message, IndexFrom(message, ":-", 0));
            && IndexFrom(expr, ":-", 0) == (if dash == -1 then -1 else |name| + 2 + dash)
            && IndexFrom(expr, ":?", 0) == |name|
  {
    var expr := name + ":?" + message;
    assert expr == name + (":?" + message);
    assert IndexFrom(":?" + message, ":?", 0) == 0 by {
      assert OccursAt(":?" + message, ":?", 0);
    }
    IndexSkips(name, ":?" + message, ":-");
    IndexSkips(name, ":?" + message, ":?");
    DashAfterQuestion(message);
  }

  lemma DashAfterQuestion(message: string)
    ensures IndexFrom(":?" + message, ":-", 0) ==
            if IndexFrom(message, ":-", 0) == -1 then -1 else 2 + IndexFrom(message, ":-", 0)
  {
    var s, tail := ":?" + message, "?" + message;
    IndexSkips("?", message, ":-");
    IndexFromIsFirst(tail, ":-", 0);
    var found := IndexFrom(tail, ":-", 0);
    forall j: nat | j <= |s|
      ensures OccursAt(s, ":-", j) <==> j >= 1 && OccursAt(tail, ":-", j - 1)
    {
      ColonIsNoDash(message, j);
    }
    FirstIndexIsUnique(s, ":-", if found == -1 then -1 else 1 + found);
  }

  lemma ColonIsNoDash(message: string, j: nat)
    ensures OccursAt(":?" + message, ":-", j) <==> j >= 1 && OccursAt("?" + message, ":-", j - 1)
  {
    var s, tail := ":?" + message, "?" + message;
    assert s == ":" + tail;
    if j + 2 <= |s| {
      var window := s[j..j + 2];
      if j == 0 {
        assert window[1] == '?';
      } else {
        assert window == tail[j - 1..j + 1];
      }
    }
  }

  // ----- What is not a reference -----

  /** A `$` before any character but `$` and `{`, or at the end, stands for itself. */
  lemma LoneDollarStays(env: Env, b: string)
    requires b == "" || (b[0] != '$' && b[0] != '{')
    ensures Expand(env, "$" + b) == Prepended("$", Shifted(Expand(env, b), 1))
  {
    if b == "" {
      DollarExpandsToItself(env);
      assert "$" + b == "$" && "$" + "" == "$";
    } else {
      assert PieceAt(env, "$" + b, 0) == Ok(Piece("$", 1));
      ExpandShifts(env, "$", b);
    }
  }

  lemma {:induction false} PlainPrefix(env: Env, a: string, b: string)
    requires '$' !in a
    ensures Expand(env, a + b) == Prepended(a, Shifted(Expand(env, b), |a|))
    decreases |a|
  {
    if a == "" {
      assert a + b == b;
      PrependedNothing(Expand(env, b));
    } else {
      var rest := a[1..];
      assert a + b == [a[0]] + (rest + b);
      PlainPrefix(env, rest, b);
      assert PieceAt(env, a + b, 0) == Ok(Piece([a[0]], 1));
      ExpandShifts(env, [a[0]], rest + b);
      ShiftedTwice(rest, Expand(env, b), |rest|, 1);
      PrependedTwice([a[0]], rest, Shifted(Expand(env, b), |a|));
      assert [a[0]] + rest == a;
    }
  }

  /** Text without `$` is its own expansion. */
  lemma PlainTextStays(env: Env, a: string)
    requires '$' !in a
    ensures Expand(env, a) == Ok(a)
  {
    PlainPrefix(env, a, "");
    assert a + "" == a;
  }

  // ----- Malformed references -----

  /** A reference that is never closed is reported where it starts, whatever expands before it. */
  lemma UnclosedIsReported(env: Env, a: string, rest: string)
    requires Expand(env, a).Ok? && !EndsOnBareDollar(env, a, 0)
    requires CloseFrom(rest, 0, 1) == -1
    ensures Expand(env, a + ("${" + rest)) == Err(Unclosed(|a|))
  {
    ExpandConcatenates(env, a, "${" + rest);
    CloseFromShifts("${", rest, 0, 1);
    assert PieceAt(env, "${" + rest, 0) == Err(Unclosed(0));
  }

  lemma ReferenceFails(env: Env, a: string, expr: string, b: string)
    requires Expand(env, a).Ok? && !EndsOnBareDollar(env, a, 0)
    requires IsBalanced(expr) && ExpandExpr(env, expr, 0).Err?
    ensures Expand(env, a + (Reference(expr) + b)) == Err(ShiftedError(ExpandExpr(env, expr, 0).error, |a|))
  {
    ReferenceExpands(env, expr);
    ErrorsAreFinal(env, Reference(expr), b, 0);
    ExpandConcatenates(env, a, Reference(expr) + b);
  }

  /** `${}` is an empty expression; one reference in another, and a modifier without a name, are refused too. */
  lemma MalformedIsReported(env: Env, a: string, expr: string, b: string)
    requires Expand(env, a).Ok? && !EndsOnBareDollar(env, a, 0) && IsBalanced(expr)
    ensures expr == "" ==> Expand(env, a + (Reference(expr) + b)) == Err(EmptyExpression(|a|))
    ensures (exists j: nat :: OccursAt(expr, "${", j)) ==> Expand(env, a + (Reference(expr) + b)) == Err(Nested(|a|))
    ensures (OccursAt(expr, ":-", 0) || (OccursAt(expr, ":?", 0) && forall j: nat :: !OccursAt(expr, ":-", j)))
            && (forall j: nat :: !OccursAt(expr, "${", j)) ==>
              Expand(env, a + (Reference(expr) + b)) == Err(EmptyName(|a|))
  {
    IndexFromIsFirst(expr, "${", 0);
    IndexFromIsFirst(expr, ":-", 0);
    IndexFromIsFirst(expr, ":?", 0);
    if ExpandExpr(env, expr, 0).Err? {
      ReferenceFails(env, a, expr, b);
    }
  }
}
