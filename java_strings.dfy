/**
 * The few java.lang.String operations that Type.java relies on, stated over Dafny strings.
 * Characters are compared by their code point, which agrees with Java's UTF-16 comparison
 * on every character of the Basic Multilingual Plane.
 */
module JavaStrings {

  const Int32Modulus: int := 0x1_0000_0000
  const Int32Min: int := -0x8000_0000
  const Int32Max: int := 0x7FFF_FFFF

  /** Reduces an integer to Java's 32-bit two's-complement range, as `int` arithmetic overflows. */
  function ToInt32(x: int): (r: int)
    ensures Int32Min <= r <= Int32Max
    ensures (r - x) % Int32Modulus == 0
  {
    (x - Int32Min) % Int32Modulus + Int32Min
  }

  /**
   * String.compareTo: the difference of the first pair of characters that differ,
   * or else the difference of the lengths. Zero exactly for equal strings.
   */
  function CompareTo(s: string, t: string): (r: int)
    ensures r == 0 <==> s == t
    decreases |s|
  {
    if s == [] || t == [] then |s| - |t|
    else if s[0] != t[0] then s[0] as int - t[0] as int
    else
      var r := CompareTo(s[1..], t[1..]);
      assert s == [s[0]] + s[1..] && t == [t[0]] + t[1..];
      r
  }

  /** Swapping the operands of CompareTo negates the result. */
  lemma {:induction false} CompareToAntisymmetric(s: string, t: string)
    ensures CompareTo(s, t) == -CompareTo(t, s)
    decreases |s|
  {
    if s != [] && t != [] && s[0] == t[0] {
      CompareToAntisymmetric(s[1..], t[1..]);
    }
  }

  /** CompareTo orders strings transitively: it is the lexicographic order. */
  lemma {:induction false} CompareToTransitive(a: string, b: string, c: string)
    requires CompareTo(a, b) < 0 && CompareTo(b, c) < 0
    ensures CompareTo(a, c) < 0
    decreases |a|
  {
    if a != [] && b != [] && c != [] && a[0] == b[0] && b[0] == c[0] {
      CompareToTransitive(a[1..], b[1..], c[1..]);
    }
  }

  /** String.hashCode: h = 31 * h + c over the characters, in 32-bit arithmetic. */
  function HashCode(s: string): (h: int)
    ensures Int32Min <= h <= Int32Max
    ensures s == [] ==> h == 0
  {
    if s == [] then 0
    else ToInt32(31 * HashCode(s[..|s| - 1]) + s[|s| - 1] as int)
  }

  /** String.startsWith. */
  predicate StartsWith(s: string, prefix: string)
  {
    |prefix| <= |s| && s[..|prefix|] == prefix
  }

  /** String.toLowerCase restricted to ASCII letters, the only letters enum constant names use here. */
  function ToLowerCase(s: string): (r: string)
    ensures |r| == |s|
    ensures forall i :: 0 <= i < |s| ==> r[i] == LowerChar(s[i])
  {
    seq(|s|, i requires 0 <= i < |s| => LowerChar(s[i]))
  }

  function LowerChar(c: char): char
  {
    if 'A' <= c <= 'Z' then (c as int - 'A' as int + 'a' as int) as char else c
  }

  /** String.replace(char, char): every occurrence of `from` becomes `to`. */
  function Replace(s: string, from: char, to: char): (r: string)
    ensures |r| == |s|
    ensures forall i :: 0 <= i < |s| ==> r[i] == if s[i] == from then to else s[i]
  {
    seq(|s|, i requires 0 <= i < |s| => if s[i] == from then to else s[i])
  }
}
