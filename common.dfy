/** Small building blocks shared by every module: an Option type, the few
    string operations the client performs (trim, lower-casing, substring
    search, decimal rendering) and sequence helpers (prefix, sums). */
module Common {

  datatype Option<+T> = None | Some(value: T)

  /** JavaScript's `a || b` on an optional string: an absent or empty value
      falls through to the default. */
  function OrElse(a: Option<string>, default: string): (r: string)
    ensures (a.Some? && a.value != "") ==> r == a.value
    ensures (a.None? || a.value == "") ==> r == default
  {
    if a.Some? && a.value != "" then a.value else default
  }

  /** `x || 0` on an optional number. */
  function OrZero(a: Option<int>): int
  {
    if a.Some? then a.value else 0
  }

  /** The white-space characters `String.prototype.trim` strips that the
      model knows about. */
  predicate IsSpace(c: char)
  {
    c == ' ' || c == '\t' || c == '\n' || c == '\r' || c == '\U{B}' || c == '\U{C}'
  }

  function TrimStart(s: string): (r: string)
    ensures |r| <= |s| && r == s[|s| - |r|..]
    ensures r == [] || !IsSpace(r[0])
    ensures forall i :: 0 <= i < |s| - |r| ==> IsSpace(s[i])
  {
    if s != [] && IsSpace(s[0]) then
      var r := TrimStart(s[1..]);
      assert s[1..][|s| - 1 - |r|..] == s[|s| - |r|..];
      assert forall i :: 1 <= i < |s| - |r| ==> s[i] == s[1..][i - 1];
      r
    else s
  }

  function TrimEnd(s: string): (r: string)
    ensures |r| <= |s| && r == s[..|r|]
    ensures r == [] || !IsSpace(r[|r| - 1])
    ensures forall i :: |r| <= i < |s| ==> IsSpace(s[i])
  {
    if s != [] && IsSpace(s[|s| - 1]) then TrimEnd(s[..|s| - 1]) else s
  }

  function Trim(s: string): string
  {
    TrimEnd(TrimStart(s))
  }

  /** A string is blank when trimming leaves nothing; exactly when every
      character is white space. */
  lemma {:induction false} TrimEmptyIffAllSpace(s: string)
    ensures Trim(s) == "" <==> forall i :: 0 <= i < |s| ==> IsSpace(s[i])
  {
    var t := TrimStart(s);
    if Trim(s) == "" {
      // TrimStart leaves a non-space first character, so t is empty here
      assert t == [];
    } else {
      var r := Trim(s);
      assert r == t[..|r|];
      assert !IsSpace(r[|r| - 1]);
      assert s[|s| - |t| + |r| - 1] == r[|r| - 1];
    }
  }

  /** ASCII lower-casing, as `toLowerCase` does on the letters A to Z. */
  function LowerChar(c: char): char
  {
    if 'A' <= c <= 'Z' then (c as int + 32) as char else c
  }

  function ToLower(s: string): (r: string)
    ensures |r| == |s|
    ensures forall i :: 0 <= i < |s| ==> r[i] == LowerChar(s[i])
  {
    if s == [] then [] else [LowerChar(s[0])] + ToLower(s[1..])
  }

  lemma ToLowerIdempotent(s: string)
    ensures ToLower(ToLower(s)) == ToLower(s)
  {
  }

  predicate OccursAt(s: string, q: string, k: int)
  {
    0 <= k <= |s| - |q| && s[k..k + |q|] == q
  }

  /** `s.includes(q)`: q occurs in s at some position. */
  predicate Contains(s: string, q: string)
  {
    exists k :: 0 <= k <= |s| - |q| && OccursAt(s, q, k)
  }

  lemma ContainsEmpty(s: string)
    ensures Contains(s, "")
  {
    assert OccursAt(s, "", 0);
  }

  /** `String(n)`: the decimal digits of a natural number. */
  function DigitChar(d: nat): char
    requires d < 10
  {
    "0123456789"[d]
  }

  function NatToString(n: nat): (r: string)
    ensures 1 <= |r|
    ensures forall i :: 0 <= i < |r| ==> '0' <= r[i] <= '9'
    decreases n
  {
    if n < 10 then [DigitChar(n)] else NatToString(n / 10) + [DigitChar(n % 10)]
  }

  /** The value of a string of decimal digits. */
  function DigitsValue(s: string): int
  {
    if s == [] then 0 else DigitsValue(s[..|s| - 1]) * 10 + (s[|s| - 1] as int - '0' as int)
  }

  /** Reading back the digits gives the number, so distinct numbers have
      distinct renderings. */
  lemma {:induction false} NatToStringRoundTrip(n: nat)
    ensures DigitsValue(NatToString(n)) == n
    decreases n
  {
    var r := NatToString(n);
    if n < 10 {
      assert r[..|r| - 1] == [];
    } else {
      NatToStringRoundTrip(n / 10);
      assert r[..|r| - 1] == NatToString(n / 10);
    }
  }

  lemma NatToStringInjective(a: nat, b: nat)
    requires NatToString(a) == NatToString(b)
    ensures a == b
  {
    NatToStringRoundTrip(a);
    NatToStringRoundTrip(b);
  }

  /** `String(n)` for an integer. */
  function IntToString(n: int): string
  {
    if n < 0 then "-" + NatToString(-n) else NatToString(n)
  }

  /** Distinct integers are rendered differently. */
  lemma IntToStringInjective(a: int, b: int)
    requires IntToString(a) == IntToString(b)
    ensures a == b
  {
    IntToStringSign(a);
    IntToStringSign(b);
    if a >= 0 {
      NatToStringInjective(a, b);
    } else {
      NatToStringInjective(-a, -b);
    }
  }

  /** A rendering starts with '-' exactly for a negative number, the
      digits of its magnitude following. */
  lemma IntToStringSign(n: int)
    ensures IntToString(n)[0] == '-' <==> n < 0
    ensures n >= 0 ==> IntToString(n) == NatToString(n)
    ensures n < 0 ==> IntToString(n)[1..] == NatToString(-n)
  {
    if n >= 0 {
      assert '0' <= NatToString(n)[0] <= '9';
    }
  }

  /** Division by a positive divisor is determined by quotient and
      remainder bounds. */
  lemma DivModUnique(x: int, d: nat, q: int, c: int)
    requires d >= 1 && 0 <= c < d && x == q * d + c
    ensures x / d == q && x % d == c
  {
    var q', c' := x / d, x % d;
    assert (q - q') * d == c' - c;
    if q > q' {
      MulAtLeast(q - q', d);
    } else if q < q' {
      MulAtLeast(q' - q, d);
    }
  }

  lemma MulAtLeast(k: int, d: nat)
    requires k >= 1
    ensures k * d >= d
  {
    assert (k - 1) * d >= 0;
  }

  /** `s.padStart(2, '0')`. */
  function PadTwo(s: string): (r: string)
    ensures |r| >= 2 && |r| >= |s|
    ensures |s| >= 2 ==> r == s
    ensures |s| < 2 ==> r == seq(2 - |s|, _ => '0') + s
  {
    if |s| >= 2 then s else seq(2 - |s|, _ => '0') + s
  }

  /** `list.slice(0, n)`. */
  function Take<T>(s: seq<T>, n: nat): (r: seq<T>)
    ensures |r| == if |s| <= n then |s| else n
    ensures r == s[..|r|]
  {
    if |s| <= n then s else s[..n]
  }

  /** `list.reverse()` on a copy. */
  function Reverse<T>(s: seq<T>): (r: seq<T>)
    ensures |r| == |s|
    ensures forall i :: 0 <= i < |s| ==> r[i] == s[|s| - 1 - i]
  {
    if s == [] then [] else Reverse(s[1..]) + [s[0]]
  }

  function Sum(s: seq<int>): int
  {
    if s == [] then 0 else s[0] + Sum(s[1..])
  }

  lemma {:induction false} SumAppend(a: seq<int>, b: seq<int>)
    ensures Sum(a + b) == Sum(a) + Sum(b)
  {
    if a == [] {
      assert a + b == b;
    } else {
      assert (a + b)[1..] == a[1..] + b;
      SumAppend(a[1..], b);
    }
  }

  /** `list.filter(p)`. */
  function Keep<T>(s: seq<T>, p: T -> bool): (r: seq<T>)
    ensures |r| <= |s|
    ensures forall i :: 0 <= i < |r| ==> r[i] in s && p(r[i])
    ensures forall i :: 0 <= i < |s| && p(s[i]) ==> s[i] in r
  {
    if s == [] then []
    else if p(s[0]) then [s[0]] + Keep(s[1..], p)
    else Keep(s[1..], p)
  }

  /** Filtering distributes over concatenation, so a filter keeps the
      relative order of the elements it keeps. */
  lemma {:induction false} KeepAppend<T>(a: seq<T>, b: seq<T>, p: T -> bool)
    ensures Keep(a + b, p) == Keep(a, p) + Keep(b, p)
  {
    if a == [] {
      assert a + b == b;
    } else {
      assert (a + b)[1..] == a[1..] + b;
      KeepAppend(a[1..], b, p);
    }
  }

  /** The records whose key is not in `ids`: what deleting each of those
      ids one by one leaves. */
  function Without<T>(s: seq<T>, key: T -> string, ids: set<string>): (r: seq<T>)
    ensures |r| <= |s|
    ensures forall i :: 0 <= i < |r| ==> r[i] in s && key(r[i]) !in ids
    ensures forall i :: 0 <= i < |s| && key(s[i]) !in ids ==> s[i] in r
  {
    if s == [] then []
    else if key(s[0]) !in ids then [s[0]] + Without(s[1..], key, ids)
    else Without(s[1..], key, ids)
  }

  lemma {:induction false} WithoutUnion<T>(s: seq<T>, key: T -> string, a: set<string>, b: set<string>)
    ensures Without(Without(s, key, a), key, b) == Without(s, key, a + b)
  {
    if s != [] {
      WithoutUnion(s[1..], key, a, b);
    }
  }

  lemma {:induction false} WithoutNothing<T>(s: seq<T>, key: T -> string)
    ensures Without(s, key, {}) == s
  {
    if s != [] {
      WithoutNothing(s[1..], key);
    }
  }

  /** Deleting every listed key leaves nothing. */
  lemma {:induction false} WithoutAll<T>(s: seq<T>, key: T -> string, ids: set<string>)
    requires forall i :: 0 <= i < |s| ==> key(s[i]) in ids
    ensures Without(s, key, ids) == []
  {
    if s != [] {
      WithoutAll(s[1..], key, ids);
    }
  }

  /** The records whose key is in `ids` passed through `f`, the others
      unchanged: what updating each of those ids leaves. */
  function UpdateWhere<T>(s: seq<T>, key: T -> string, ids: set<string>, f: T -> T): (r: seq<T>)
    ensures |r| == |s|
    ensures forall i :: 0 <= i < |s| ==> r[i] == if key(s[i]) in ids then f(s[i]) else s[i]
  {
    seq(|s|, i requires 0 <= i < |s| => if key(s[i]) in ids then f(s[i]) else s[i])
  }

  /** Updating the ids of a, then those of b, with a change that keeps the
      key and does nothing the second time, updates the ids of both. */
  lemma UpdateWhereUnion<T>(s: seq<T>, key: T -> string, a: set<string>, b: set<string>, f: T -> T)
    requires forall x :: key(f(x)) == key(x) && f(f(x)) == f(x)
    ensures UpdateWhere(UpdateWhere(s, key, a, f), key, b, f) == UpdateWhere(s, key, a + b, f)
  {
    var r1 := UpdateWhere(s, key, a, f);
    var r2 := UpdateWhere(r1, key, b, f);
    var r3 := UpdateWhere(s, key, a + b, f);
    forall i | 0 <= i < |s| ensures r2[i] == r3[i] {
      assert key(r1[i]) == key(s[i]);
    }
  }

  lemma UpdateWhereNothing<T>(s: seq<T>, key: T -> string, f: T -> T)
    ensures UpdateWhere(s, key, {}, f) == s
  {
  }
}
