/**
 Expansion of `${NAME}` references in configuration strings. A string is a sequence of bytes, as the
 scanner only ever looks at bytes; the environment is a map.
 */
module EnvExpander {

  datatype ExpandError =
    | Unclosed(start: nat)
    | EmptyExpression(start: nat)
    | Nested(start: nat)
    | EmptyName(start: nat)
    | Missing(name: string, message: string)
    | NotSet(name: string)

  datatype Result<+T> = Ok(value: T) | Err(error: ExpandError)

  type Env = map<string, string>

  // ----- Searching -----

  predicate OccursAt(s: string, pattern: string, i: nat)
  {
    i + |pattern| <= |s| && s[i..i + |pattern|] == pattern
  }

  /** The first occurrence of pattern at or after i, or -1. */
  function IndexFrom(s: string, pattern: string, i: nat): (r: int)
    requires i <= |s|
    ensures r == -1 || i <= r <= |s| - |pattern|
    decreases |s| - i
  {
    if OccursAt(s, pattern, i) then i
    else if i == |s| then -1
    else IndexFrom(s, pattern, i + 1)
  }

  /** `r` is the first occurrence at or after i; -1 stands for there being none. */
  ghost predicate IsFirstIndex(s: string, pattern: string, i: nat, r: int)
  {
    && (r == -1 || (i <= r && OccursAt(s, pattern, r)))
    && forall j: nat | i <= j < (if r == -1 then |s| + 1 else r) :: !OccursAt(s, pattern, j)
  }

  lemma {:induction false} IndexFromIsFirst(s: string, pattern: string, i: nat)
    requires i <= |s|
    ensures IsFirstIndex(s, pattern, i, IndexFrom(s, pattern, i))
    decreases |s| - i
  {
    if i < |s| {
      IndexFromIsFirst(s, pattern, i + 1);
    }
  }

  /** There is only one first index. */
  lemma FirstIndexIsUnique(s: string, pattern: string, r: int)
    requires IsFirstIndex(s, pattern, 0, r)
    ensures r == IndexFrom(s, pattern, 0)
  {
    IndexFromIsFirst(s, pattern, 0);
    var found := IndexFrom(s, pattern, 0);
    assert r != -1 ==> OccursAt(s, pattern, r);
    assert found != -1 ==> OccursAt(s, pattern, found);
  }

  /** How deep the braces are before position j, one brace being open at pos. */
  function Depth(s: string, pos: nat, j: nat): int
    requires pos <= j <= |s|
  {
    if j == pos then 1
    else Depth(s, pos, j - 1) + if s[j - 1] == '{' then 1 else if s[j - 1] == '}' then -1 else 0
  }

  /** `end` is the first position that takes the depth to 0; -1 stands for there being none. */
  ghost predicate IsClosingBrace(s: string, pos: nat, end: int)
    requires pos <= |s|
  {
    && (end == -1 || (pos <= end < |s| && s[end] == '}' && Depth(s, pos, end + 1) == 0))
    && forall j | pos <= j <= (if end == -1 then |s| else end) :: Depth(s, pos, j) > 0
  }

  function CloseFrom(s: string, j: nat, depth: nat): (end: int)
    requires j <= |s| && depth >= 1
    ensures end == -1 || j <= end < |s|
    decreases |s| - j
  {
    if j == |s| then -1
    else if s[j] == '{' then CloseFrom(s, j + 1, depth + 1)
    else if s[j] != '}' then CloseFrom(s, j + 1, depth)
    else if depth == 1 then j
    else CloseFrom(s, j + 1, depth - 1)
  }

  method FindClosingBrace(s: string, pos: nat) returns (end: int)
    requires pos <= |s|
    ensures IsClosingBrace(s, pos, end)
    ensures end == CloseFrom(s, pos, 1)
  {
    var depth := 1;
    for j := pos to |s|
      invariant depth == Depth(s, pos, j) >= 1
      invariant forall k | pos <= k <= j :: Depth(s, pos, k) > 0
      invariant CloseFrom(s, pos, 1) == CloseFrom(s, j, depth)
    {
      if s[j] == '{' {
        depth := depth + 1;
      } else if s[j] == '}' {
        depth := depth - 1;
        if depth == 0 {
          return j;
        }
      }
    }
    return -1;
  }

  // ----- One expression -----

  datatype Mode = Required | Default | MustHave

  /** Splits at the first `:-`, failing that at the first `:?`. */
  function ParseExpr(expr: string): (string, string, Mode)
  {
    var dash := IndexFrom(expr, ":-", 0);
    if dash >= 0 then (expr[..dash], expr[dash + 2..], Default)
    else
      var question := IndexFrom(expr, ":?", 0);
      if question >= 0 then (expr[..question], expr[question + 2..], MustHave)
      else (expr, "", Required)
  }

  function ExpandExpr(env: Env, expr: string, start: nat): Result<string>
  {
    if expr == "" then Err(EmptyExpression(start))
    else if IndexFrom(expr, "${", 0) >= 0 then Err(Nested(start))
    else
      var (name, modifier, mode) := ParseExpr(expr);
      if name == "" then Err(EmptyName(start))
      else if name in env && env[name] != "" then Ok(env[name])
      else match mode
           case Default => Ok(modifier)
           case MustHave => Err(Missing(name, modifier))
           case Required => if name in env then Ok("") else Err(NotSet(name))
  }

  // ----- The scan -----

  /** One turn of the scan at i: the text it writes and the position it goes to. */
  datatype Piece = Piece(text: string, next: nat)

  function PieceAt(env: Env, s: string, i: nat): (p: Result<Piece>)
    requires i < |s|
    ensures p.Ok? ==> i < p.value.next <= |s|
  {
    if s[i] != '$' then Ok(Piece([s[i]], i + 1))
    else if i + 1 < |s| && s[i + 1] == '$' then Ok(Piece("$", i + 2))
    else if i + 1 >= |s| || s[i + 1] != '{' then Ok(Piece([s[i]], i + 1))
    else
      var end := CloseFrom(s, i + 2, 1);
      if end == -1 then Err(Unclosed(i))
      else
        match ExpandExpr(env, s[i + 2..end], i)
        case Err(error) => Err(error)
        case Ok(text) => Ok(Piece(text, end + 1))
  }

  function Prepended(text: string, r: Result<string>): Result<string>
  {
    if r.Ok? then Ok(text + r.value) else r
  }

  function ExpandFrom(env: Env, s: string, i: nat): Result<string>
    requires i <= |s|
    decreases |s| - i
  {
    if i == |s| then Ok("")
    else
      match PieceAt(env, s, i)
      case Err(error) => Err(error)
      case Ok(piece) => Prepended(piece.text, ExpandFrom(env, s, piece.next))
  }

  function Expand(env: Env, s: string): Result<string> { ExpandFrom(env, s, 0) }

  /** One turn of the loop. */
  method NextPiece(env: Env, s: string, i: nat) returns (p: Result<Piece>)
    requires i < |s|
    ensures p == PieceAt(env, s, i)
  {
    if s[i] != '$' {
      return Ok(Piece([s[i]], i + 1));
    }
    if i + 1 < |s| && s[i + 1] == '$' {
      return Ok(Piece("$", i + 2));
    }
    if i + 1 >= |s| || s[i + 1] != '{' {
      return Ok(Piece([s[i]], i + 1));
    }
    var end := FindClosingBrace(s, i + 2);
    if end == -1 {
      return Err(Unclosed(i));
    }
    var expanded := ExpandExpr(env, s[i + 2..end], i);
    if expanded.Err? {
      return Err(expanded.error);
    }
    p := Ok(Piece(expanded.value, end + 1));
  }

  method ExpandEnvVars(env: Env, s: string) returns (r: Result<string>)
    ensures r == Expand(env, s)
  {
    var buf := "";
    var i := 0;
    PrependedNothing(Expand(env, s));
    while i < |s|
      invariant 0 <= i <= |s|
      invariant Expand(env, s) == Prepended(buf, ExpandFrom(env, s, i))
    {
      ScanTurn(env, s, i, buf);
      var p := NextPiece(env, s, i);
      if p.Err? {
        return Err(p.error);
      }
      buf := buf + p.value.text;
      i := p.value.next;
    }
    assert buf + "" == buf;
    r := Ok(buf);
  }

  lemma ScanTurn(env: Env, s: string, i: nat, buf: string)
    requires i < |s|
    ensures var p := PieceAt(env, s, i);
            Prepended(buf, ExpandFrom(env, s, i)) ==
            if p.Err? then Err(p.error) else Prepended(buf + p.value.text, ExpandFrom(env, s, p.value.next))
  {
    var p := PieceAt(env, s, i);
    if p.Ok? {
      PrependedTwice(buf, p.value.text, ExpandFrom(env, s, p.value.next));
    }
  }

  lemma PrependedNothing(r: Result<string>)
    ensures Prepended("", r) == r
  {
    assert r.Ok? ==> "" + r.value == r.value;
  }

  lemma PrependedTwice(a: string, b: string, r: Result<string>)
    ensures Prepended(a, Prepended(b, r)) == Prepended(a + b, r)
  {
    if r.Ok? {
      assert a + (b + r.value) == (a + b) + r.value;
    }
  }
}
