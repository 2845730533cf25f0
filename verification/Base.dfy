/** Failure-compatible results and the fixed-width integers of the wire format. */
module Base {

  datatype Option<+T> = None | Some(value: T)

  datatype Result<+T, +E> = Ok(value: T) | Err(error: E) {
    predicate IsFailure() {
      Err?
    }

    function PropagateFailure<U>(): Result<U, E>
      requires Err?
    {
      Err(error)
    }

    function Extract(): T
      requires Ok?
    {
      value
    }
  }

  const U64_MAX: int := 0xFFFF_FFFF_FFFF_FFFF
  const U32_MAX: int := 0xFFFF_FFFF

  /** An unsigned 64-bit integer: sequences, revisions and cursors. */
  type u64 = n: int | 0 <= n <= U64_MAX
  type u32 = n: int | 0 <= n <= U32_MAX

  /** Addition that reports overflow instead of wrapping. */
  function CheckedAdd(a: u64, b: nat): Option<u64> {
    if a + b <= U64_MAX then Some(a + b) else None
  }
}

/** Strings: trimming, blank identifiers, decimal rendering and derived event ids. */
module Text {
  import opened Base

  /** The Unicode White_Space property, which is what trimming removes. */
  predicate IsSpace(c: char) {
    var n := c as int;
    || 0x09 <= n <= 0x0D || n == 0x20 || n == 0x85 || n == 0xA0 || n == 0x1680
    || 0x2000 <= n <= 0x200A || n == 0x2028 || n == 0x2029 || n == 0x202F
    || n == 0x205F || n == 0x3000
  }

  function TrimStart(s: string): string {
    if s != [] && IsSpace(s[0]) then TrimStart(s[1..]) else s
  }

  function TrimEnd(s: string): string {
    if s != [] && IsSpace(s[|s| - 1]) then TrimEnd(s[..|s| - 1]) else s
  }

  function Trim(s: string): string {
    TrimEnd(TrimStart(s))
  }

  /** An identifier or label that nothing is left of once it is trimmed. */
  predicate Blank(s: string) {
    Trim(s) == []
  }

  /** A string is blank exactly when it holds nothing but white space. */
  lemma {:induction false} BlankMeansOnlySpaces(s: string)
    ensures Blank(s) <==> forall i | 0 <= i < |s| :: IsSpace(s[i])
  {
    TrimStartIsSuffix(s);
    var t := TrimStart(s);
    if t != [] {
      TrimEndKeepsHead(t);
    }
  }

  lemma {:induction false} TrimStartIsSuffix(s: string)
    ensures |TrimStart(s)| <= |s| && TrimStart(s) == s[|s| - |TrimStart(s)|..]
    ensures forall i | 0 <= i < |s| - |TrimStart(s)| :: IsSpace(s[i])
    ensures TrimStart(s) != [] ==> !IsSpace(TrimStart(s)[0])
  {
    if s != [] && IsSpace(s[0]) {
      var rest := s[1..];
      TrimStartIsSuffix(rest);
      var cut := |rest| - |TrimStart(rest)|;
      assert s[cut + 1..] == rest[cut..];
      forall i | 0 <= i < cut + 1
        ensures IsSpace(s[i])
      {
        assert i == 0 || s[i] == rest[i - 1];
      }
    }
  }

  lemma {:induction false} TrimEndKeepsHead(s: string)
    requires s != [] && !IsSpace(s[0])
    ensures TrimEnd(s) != []
  {
    if IsSpace(s[|s| - 1]) {
      TrimEndKeepsHead(s[..|s| - 1]);
    }
  }

  function Digit(d: int): char
    requires 0 <= d < 10
  {
    (d + '0' as int) as char
  }

  /** Decimal rendering without leading zeros. */
  function Decimal(n: nat): string {
    if n < 10 then [Digit(n)] else Decimal(n / 10) + [Digit(n % 10)]
  }

  lemma {:induction false} DecimalHasNoColon(n: nat)
    ensures ':' !in Decimal(n)
  {
    if n >= 10 {
      DecimalHasNoColon(n / 10);
    }
  }

  lemma {:induction false} DecimalInjective(m: nat, n: nat)
    requires Decimal(m) == Decimal(n)
    ensures m == n
  {
    DecimalNonEmpty(m / 10);
    DecimalNonEmpty(n / 10);
    if m >= 10 && n >= 10 {
      var dm, dn := Decimal(m), Decimal(n);
      assert Decimal(m / 10) == dm[..|dm| - 1] && Decimal(n / 10) == dn[..|dn| - 1];
      DecimalInjective(m / 10, n / 10);
      assert dm[|dm| - 1] == Digit(m % 10) && dn[|dn| - 1] == Digit(n % 10);
    } else if m < 10 && n < 10 {
      assert Decimal(m)[0] == Digit(m) && Decimal(n)[0] == Digit(n);
    }
  }

  lemma {:induction false} DecimalNonEmpty(n: nat)
    ensures |Decimal(n)| >= 1
  {
  }

  /** The id of the `ordinal`-th event that a message causes. */
  function FromCausation(causationId: string, ordinal: u32): string {
    causationId + ":" + Decimal(ordinal)
  }

  /** Derived event ids collide only for the same message and the same ordinal. */
  lemma {:induction false} FromCausationInjective(a: string, i: u32, b: string, j: u32)
    requires FromCausation(a, i) == FromCausation(b, j)
    ensures a == b && i == j
  {
    var s, di, dj := FromCausation(a, i), Decimal(i), Decimal(j);
    DecimalHasNoColon(i);
    DecimalHasNoColon(j);
    assert s[|a|] == ':' && s[|b|] == ':';
    assert s[|a| + 1..] == di && s[|b| + 1..] == dj;
    assert forall k | |a| < k < |s| :: s[k] == di[k - |a| - 1];
    assert forall k | |b| < k < |s| :: s[k] == dj[k - |b| - 1];
    assert a == s[..|a|] && b == s[..|b|];
    DecimalInjective(i, j);
  }

  lemma NotBlankWith(s: string, k: nat)
    requires k < |s| && !IsSpace(s[k])
    ensures !Blank(s)
  {
    BlankMeansOnlySpaces(s);
  }

  lemma FromCausationNotBlank(causationId: string, ordinal: u32)
    ensures !Blank(FromCausation(causationId, ordinal))
  {
    NotBlankWith(FromCausation(causationId, ordinal), |causationId|);
  }
}
