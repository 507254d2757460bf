/** The string operations that record identities go through. Case mapping covers the letters A-Z and
    the two further characters that fold to an ASCII letter: the long s and the Kelvin sign. */
module Text {

  const LONG_S: char := '\U{017F}'
  const KELVIN: char := '\U{212A}'
  const NUL: char := '\0'

  predicate IsSpace(c: char) {
    || c == ' ' || '\t' <= c <= '\r' || c == '\U{0085}' || c == '\U{00A0}' || c == '\U{1680}'
    || '\U{2000}' <= c <= '\U{200A}' || c == '\U{2028}' || c == '\U{2029}' || c == '\U{202F}'
    || c == '\U{205F}' || c == '\U{3000}'
  }

  function TrimLeft(s: string): string {
    if s != "" && IsSpace(s[0]) then TrimLeft(s[1..]) else s
  }

  function TrimRight(s: string): string {
    if s != "" && IsSpace(s[|s| - 1]) then TrimRight(s[..|s| - 1]) else s
  }

  function TrimSpace(s: string): string {
    TrimRight(TrimLeft(s))
  }

  function LowerChar(c: char): char {
    if 'A' <= c <= 'Z' then (c as int + 32) as char
    else if c == KELVIN then 'k'
    else c
  }

  function ToLower(s: string): (lower: string)
    ensures |lower| == |s|
  {
    seq(|s|, i requires 0 <= i < |s| => LowerChar(s[i]))
  }

  /** One representative of the characters that case folding identifies. */
  function FoldChar(c: char): char {
    if c == LONG_S then 's' else LowerChar(c)
  }

  predicate EqualFold(a: string, b: string) {
    |a| == |b| && forall i | 0 <= i < |a| :: FoldChar(a[i]) == FoldChar(b[i])
  }

  lemma FoldTransitive(a: string, b: string, c: string)
    requires EqualFold(a, b) && EqualFold(b, c)
    ensures EqualFold(a, c)
  {
  }

  /** Only the spaces at both ends are cut off, and all of them. */
  lemma TrimmedIs(s: string)
    ensures exists i, j :: 0 <= i <= j <= |s| && IsTrimmed(s, i, j) && TrimSpace(s) == s[i..j]
  {
    TrimmedLeft(s);
    TrimmedRight(TrimLeft(s));
    var i := |s| - |TrimLeft(s)|;
    var j := i + |TrimSpace(s)|;
    assert s[i..] == TrimLeft(s) && s[i..j] == TrimLeft(s)[..j - i];
    forall k | j <= k < |s| ensures IsSpace(s[k]) {
      assert s[k] == TrimLeft(s)[k - i];
    }
    assert IsTrimmed(s, i, j);
  }

  ghost predicate IsTrimmed(s: string, i: int, j: int)
    requires 0 <= i <= j <= |s|
  {
    && (forall k | 0 <= k < i || j <= k < |s| :: IsSpace(s[k]))
    && (i < j ==> !IsSpace(s[i]) && !IsSpace(s[j - 1]))
  }

  lemma {:induction false} TrimmedLeft(s: string)
    ensures var t := TrimLeft(s); var i := |s| - |t|;
            0 <= i && t == s[i..] && (forall k | 0 <= k < i :: IsSpace(s[k])) && (t != "" ==> !IsSpace(t[0]))
  {
    if s != "" && IsSpace(s[0]) {
      TrimmedLeft(s[1..]);
      var i := |s| - |TrimLeft(s)|;
      forall k | 0 <= k < i ensures IsSpace(s[k]) {
        assert k > 0 ==> s[k] == s[1..][k - 1];
      }
    }
  }

  lemma {:induction false} TrimmedRight(s: string)
    ensures var t := TrimRight(s);
            t <= s && (forall k | |t| <= k < |s| :: IsSpace(s[k])) && (t != "" ==> !IsSpace(t[|t| - 1]))
  {
    if s != "" && IsSpace(s[|s| - 1]) {
      TrimmedRight(s[..|s| - 1]);
    }
  }

  /** A capital letter becomes the small one at the same place of the alphabet, and the Kelvin sign a k. */
  lemma LetterLowered(c: char)
    ensures 'A' <= c <= 'Z' ==> 'a' <= LowerChar(c) <= 'z' && LowerChar(c) as int - 'a' as int == c as int - 'A' as int
    ensures LowerChar(KELVIN) == 'k' && (!('A' <= c <= 'Z') && c != KELVIN ==> LowerChar(c) == c)
  {
  }

  /** Texts are equal up to case if their small letters are, the long s being an s. */
  lemma FoldsToLower(a: string, b: string)
    requires LONG_S !in a && LONG_S !in b
    ensures EqualFold(a, b) <==> ToLower(a) == ToLower(b)
    ensures EqualFold("S", [LONG_S]) && EqualFold([KELVIN], "k")
  {
    if ToLower(a) == ToLower(b) {
      forall i | 0 <= i < |a| ensures FoldChar(a[i]) == FoldChar(b[i]) {
        assert ToLower(a)[i] == ToLower(b)[i];
      }
    }
    if EqualFold(a, b) {
      forall i | 0 <= i < |a| ensures LowerChar(a[i]) == LowerChar(b[i]) {
        assert FoldChar(a[i]) == FoldChar(b[i]);
      }
    }
  }

  // ----- decimal numbers -----

  /** The number that decimal digits stand for. */
  ghost function NumberOf(s: string): int {
    if s == "" then 0 else 10 * NumberOf(s[..|s| - 1]) + (s[|s| - 1] as int - '0' as int)
  }

  lemma {:induction false} FormatsNumber(n: nat)
    ensures NumberOf(FormatNat(n)) == n && forall i | 0 <= i < |FormatNat(n)| :: '0' <= FormatNat(n)[i] <= '9'
  {
    if n >= 10 {
      FormatsNumber(n / 10);
      var front := FormatNat(n / 10);
      assert (front + [Digit(n % 10)])[..|front|] == front;
    } else {
      assert [Digit(n)][..0] == "";
    }
  }

  function Digit(d: int): char
    requires 0 <= d < 10
  {
    ('0' as int + d) as char
  }

  function FormatNat(n: nat): string {
    if n < 10 then [Digit(n)] else FormatNat(n / 10) + [Digit(n % 10)]
  }

  function FormatInt(n: int): string {
    if n < 0 then "-" + FormatNat(-n) else FormatNat(n)
  }

  predicate HasNul(s: string) {
    NUL in s
  }

  lemma {:induction false} FormatNatHasNoNul(n: nat)
    ensures !HasNul(FormatNat(n))
  {
    if n >= 10 { FormatNatHasNoNul(n / 10); }
  }

  lemma FormatIntHasNoNul(n: int)
    ensures !HasNul(FormatInt(n))
  {
    FormatNatHasNoNul(if n < 0 then -n else n);
  }

  lemma NoNulAfter(a: string, x: string, k: int)
    requires |a| < k < |a| + 1 + |x| && !HasNul(x)
    ensures (a + [NUL] + x)[k] != NUL
  {
    assert (a + [NUL] + x)[k] == x[k - |a| - 1];
  }

  /** A text up to its last NUL is determined by the whole text. */
  lemma LastNul(a: string, x: string, b: string, y: string)
    requires a + [NUL] + x == b + [NUL] + y && !HasNul(x) && !HasNul(y)
    ensures a == b && x == y
  {
    var s, t := a + [NUL] + x, b + [NUL] + y;
    assert s[|a|] == NUL && t[|b|] == NUL;
    if |a| < |b| {
      NoNulAfter(a, x, |b|);
      assert false;
    } else if |b| < |a| {
      NoNulAfter(b, y, |a|);
      assert false;
    }
    assert a == s[..|a|] && b == t[..|b|];
    assert x == s[|a| + 1..] && y == t[|b| + 1..];
  }
}
