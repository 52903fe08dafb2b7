/** Python strings as sequences of code points.  Lone surrogates are ordinary
    code points here, as they are in a Python `str`. */
module Text {

  type Code = c: int | 0 <= c <= 0x10FFFF

  type Str = seq<Code>

  /** The code points of an ASCII literal. */
  function Lit(s: string): (r: Str)
    ensures |r| == |s|
    ensures forall i :: 0 <= i < |s| ==> r[i] == s[i] as int
  {
    seq(|s|, i requires 0 <= i < |s| => s[i] as int)
  }

  /** `str.isspace` on one code point. */
  predicate IsSpace(c: Code) {
    || 9 <= c <= 13
    || 28 <= c <= 32
    || c in {0x85, 0xA0, 0x1680, 0x2028, 0x2029, 0x202F, 0x205F, 0x3000}
    || 0x2000 <= c <= 0x200A
  }

  predicate IsDigit(c: Code) {
    '0' as int <= c <= '9' as int
  }

  /** `w` occurs in `s` at position `i`. */
  predicate At(s: Str, i: nat, w: Str) {
    i + |w| <= |s| && s[i..i + |w|] == w
  }

  lemma AtConcat(s: Str, i: nat, a: Str, b: Str)
    ensures At(s, i, a + b) <==> At(s, i, a) && At(s, i + |a|, b)
  {
    if At(s, i, a + b) {
      assert s[i..i + |a|] == s[i..i + |a + b|][..|a|] == a;
      assert s[i + |a|..i + |a| + |b|] == s[i..i + |a + b|][|a|..] == b;
    }
    if At(s, i, a) && At(s, i + |a|, b) {
      assert s[i..i + |a + b|] == s[i..i + |a|] + s[i + |a|..i + |a| + |b|];
    }
  }

  lemma AtIndex(s: Str, i: nat, w: Str, k: nat)
    requires At(s, i, w) && k < |w|
    ensures s[i + k] == w[k]
  {
    assert s[i..i + |w|][k] == w[k];
  }

  lemma AtAll(s: Str, i: nat, w: Str)
    requires At(s, i, w)
    ensures forall k :: 0 <= k < |w| ==> s[i + k] == w[k]
    ensures forall a, b :: 0 <= a <= b <= |w| ==> s[i + a..i + b] == w[a..b]
  {
    forall k | 0 <= k < |w| ensures s[i + k] == w[k] { AtIndex(s, i, w, k); }
  }

  /** `separator.join(blocks)` */
  function Join(separator: Str, blocks: seq<Str>): Str {
    if blocks == [] then []
    else if |blocks| == 1 then blocks[0]
    else blocks[0] + separator + Join(separator, blocks[1..])
  }
}
