/** Small datatypes and orders shared by the other modules. */
module Prelude {

  datatype Option<+T> = None | Some(value: T)

  function Min(a: int, b: int): int { if a <= b then a else b }

  function Max(a: int, b: int): int { if a >= b then a else b }

  /** The order of strings by their characters, as `<` on Go strings. */
  predicate StringLess(a: string, b: string)
  {
    if b == "" then false
    else if a == "" then true
    else if a[0] != b[0] then a[0] < b[0]
    else StringLess(a[1..], b[1..])
  }

  lemma {:induction false} StringLessIsTotal(a: string, b: string)
    ensures StringLess(a, b) || StringLess(b, a) || a == b
    ensures !(StringLess(a, b) && StringLess(b, a))
    ensures a == b ==> !StringLess(a, b)
  {
    if a != "" && b != "" && a[0] == b[0] {
      StringLessIsTotal(a[1..], b[1..]);
      assert a == [a[0]] + a[1..] && b == [b[0]] + b[1..];
    }
  }

  lemma {:induction false} StringLessIsTransitive(a: string, b: string, c: string)
    requires StringLess(a, b) && StringLess(b, c)
    ensures StringLess(a, c)
  {
    if a != "" && a[0] == b[0] == c[0] {
      StringLessIsTransitive(a[1..], b[1..], c[1..]);
    }
  }

  /** After k common characters, a ends before b or has the smaller character. */
  predicate LessAt(a: string, b: string, k: nat)
  {
    && k <= |a| && k < |b| && a[..k] == b[..k]
    && (k == |a| || a[k] < b[k])
  }

  lemma {:induction false} StringLessIff(a: string, b: string)
    ensures StringLess(a, b) <==> exists k: nat :: LessAt(a, b, k)
  {
    if a == "" {
      assert b != "" ==> LessAt(a, b, 0);
    } else if b != "" {
      if a[0] == b[0] {
        StringLessIff(a[1..], b[1..]);
        if k: nat :| LessAt(a[1..], b[1..], k) {
          LessAtShifts(a, b, k);
        }
        if k: nat :| LessAt(a, b, k) {
          LessAtShifts(a, b, k - 1);
        }
      } else {
        assert a[0] < b[0] <==> LessAt(a, b, 0);
        if k: nat :| k > 0 && LessAt(a, b, k) {
          HeadsAgree(a, b, k);
        }
      }
    }
  }

  lemma HeadsAgree(a: string, b: string, k: nat)
    requires k > 0 && LessAt(a, b, k)
    ensures a[0] == b[0]
  {
    assert a[..k][0] == a[0] && b[..k][0] == b[0];
  }

  lemma LessAtShifts(a: string, b: string, k: nat)
    requires a != "" && b != "" && a[0] == b[0]
    ensures LessAt(a[1..], b[1..], k) <==> LessAt(a, b, k + 1)
  {
    if k < |a| && k < |b| {
      assert a[..k + 1] == [a[0]] + a[1..][..k] && b[..k + 1] == [b[0]] + b[1..][..k];
      assert a[1..][..k] == a[..k + 1][1..] && b[1..][..k] == b[..k + 1][1..];
    }
  }

  const INT64_MODULUS: int := 0x1_0000_0000_0000_0000
  const INT64_LIMIT: int := 0x8000_0000_0000_0000

  /** Signed 64-bit wrap-around. */
  function Wrap64(x: int): int { (x + INT64_LIMIT) % INT64_MODULUS - INT64_LIMIT }

  lemma Wrap64Fits(x: int)
    ensures -INT64_LIMIT <= Wrap64(x) < INT64_LIMIT
    ensures -INT64_LIMIT <= x < INT64_LIMIT ==> Wrap64(x) == x
    ensures (x - Wrap64(x)) % INT64_MODULUS == 0
  {
  }

  // ----- Counting -----

  /** The places of a sequence at which a condition holds. */
  function Places<T>(s: seq<T>, holds: T -> bool): set<nat>
  {
    set i | 0 <= i < |s| && holds(s[i])
  }

  lemma PlacesOfNothing<T>(s: seq<T>, holds: T -> bool)
    requires s == []
    ensures Places(s, holds) == {}
  {
  }

  lemma OneMorePlace<T>(s: seq<T>, holds: T -> bool)
    requires s != []
    ensures |Places(s, holds)| == |Places(s[..|s| - 1], holds)| + if holds(s[|s| - 1]) then 1 else 0
  {
    var init, last := s[..|s| - 1], |s| - 1;
    assert last !in Places(init, holds);
    assert Places(s, holds) == Places(init, holds) + if holds(s[last]) then {last} else {};
  }

  /** The sum of the numbers at the places where a condition holds. */
  function SumWhere<T>(s: seq<T>, holds: T -> bool, number: T -> int): int
  {
    if s == [] then 0
    else
      var last := s[|s| - 1];
      SumWhere(s[..|s| - 1], holds, number) + if holds(last) then number(last) else 0
  }
}
