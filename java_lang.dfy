/**
 * The two pieces of `java.lang` behaviour the model depends on:
 * `int` addition, which wraps around modulo 2^32, and `String.trim()`.
 */
module JavaLang {

  /** Java's `int`: a signed 32-bit two's-complement integer. */
  type Int32 = x: int | -0x8000_0000 <= x < 0x8000_0000

  /** The `int` congruent to `x` modulo 2^32: what a 32-bit register keeps of `x`. */
  function Wrap32(x: int): (r: Int32)
    ensures (x - r) % 0x1_0000_0000 == 0
    ensures -0x8000_0000 <= x < 0x8000_0000 ==> r == x
  {
    (x + 0x8000_0000) % 0x1_0000_0000 - 0x8000_0000
  }

  /** Java `a + b` on two `int` operands. */
  function AddInt(a: Int32, b: Int32): (r: Int32)
    ensures -0x8000_0000 <= a + b < 0x8000_0000 ==> r == a + b
    ensures a + b >= 0x8000_0000 ==> r == a + b - 0x1_0000_0000
    ensures a + b < -0x8000_0000 ==> r == a + b + 0x1_0000_0000
  {
    Wrap32(a + b)
  }

  /** Two integers that differ by a multiple of 2^32 wrap to the same `int`. */
  lemma {:induction false} Wrap32Congruent(x: int, y: int)
    requires (x - y) % 0x1_0000_0000 == 0
    ensures Wrap32(x) == Wrap32(y)
  {
    var a, b := x + 0x8000_0000, y + 0x8000_0000;
    var k := (x - y) / 0x1_0000_0000;
    assert a == b + 0x1_0000_0000 * k;
    var d := a % 0x1_0000_0000 - b % 0x1_0000_0000;
    assert d == 0x1_0000_0000 * (b / 0x1_0000_0000 + k - a / 0x1_0000_0000);
  }

  /**
   * A chain of `int` additions evaluated left to right, each step wrapping,
   * equals the exact sum wrapped once.
   */
  lemma {:induction false} AddIntChain(a: Int32, b: Int32, c: Int32, d: Int32)
    ensures AddInt(AddInt(AddInt(a, b), c), d) == Wrap32(a + b + c + d)
  {
    var ab := AddInt(a, b);
    var abc := AddInt(ab, c);
    Wrap32Congruent(ab + c, a + b + c);
    Wrap32Congruent(abc + d, a + b + c + d);
  }

  /** `Character.isWhitespace` is not what `trim()` uses: it strips every code unit up to U+0020. */
  predicate TrimmedAway(c: char) {
    c <= ' '
  }

  /** The suffix of `s` left after `trim()` has removed its leading characters. */
  function TrimStart(s: string): (r: string)
    ensures |r| <= |s| && r == s[|s| - |r|..]
    ensures r == [] || !TrimmedAway(r[0])
  {
    if s != [] && TrimmedAway(s[0]) then TrimStart(s[1..]) else s
  }

  /** The prefix of `s` left after `trim()` has removed its trailing characters. */
  function TrimEnd(s: string): (r: string)
    ensures |r| <= |s| && r == s[..|r|]
    ensures r == [] || !TrimmedAway(r[|r| - 1])
  {
    if s != [] && TrimmedAway(s[|s| - 1]) then TrimEnd(s[..|s| - 1]) else s
  }

  /** Java `s.trim()`. */
  function Trim(s: string): string {
    TrimEnd(TrimStart(s))
  }

  /** `TrimStart` removes everything exactly when every character is one `trim()` strips. */
  lemma {:induction false} TrimStartEmpty(s: string)
    ensures TrimStart(s) == [] <==> forall i :: 0 <= i < |s| ==> TrimmedAway(s[i])
  {
    if s != [] && TrimmedAway(s[0]) {
      TrimStartEmpty(s[1..]);
      assert forall i :: 1 <= i < |s| ==> s[i] == s[1..][i - 1];
    }
  }

  /** `TrimEnd` empties a string only when that string is already empty or starts with a stripped character. */
  lemma {:induction false} TrimEndKeepsFirst(s: string)
    requires s != [] && !TrimmedAway(s[0])
    ensures TrimEnd(s) != []
  {
    if TrimmedAway(s[|s| - 1]) {
      assert |s| > 1;
      TrimEndKeepsFirst(s[..|s| - 1]);
    }
  }

  /** `s.trim().isEmpty()` holds exactly when every character of `s` is at most U+0020. */
  lemma TrimEmptyIff(s: string)
    ensures Trim(s) == [] <==> forall i :: 0 <= i < |s| ==> TrimmedAway(s[i])
  {
    TrimStartEmpty(s);
    var t := TrimStart(s);
    if t != [] {
      TrimEndKeepsFirst(t);
    }
  }

  /** `s.contains(part)`. */
  predicate Contains(s: string, part: string) {
    exists i :: 0 <= i <= |s| && part <= s[i..]
  }

  /** A string contains itself, and a concatenation contains whatever either side contains. */
  lemma ContainsInConcat(a: string, b: string, part: string)
    ensures Contains(part, part)
    ensures Contains(a, part) ==> Contains(a + b, part)
    ensures Contains(b, part) ==> Contains(a + b, part)
  {
    assert part <= part[0..];
    if Contains(a, part) {
      var i :| 0 <= i <= |a| && part <= a[i..];
      assert forall k :: 0 <= k < |part| ==> (a + b)[i..][k] == a[i..][k];
      assert part <= (a + b)[i..];
    }
    if Contains(b, part) {
      var j :| 0 <= j <= |b| && part <= b[j..];
      assert (a + b)[|a| + j..] == b[j..];
    }
  }
}
