/** `Vector2i`: a pair of Java `int`s with componentwise addition. */
module Vectors {
  import opened JavaInt

  /**
   * The source's fields are public and mutable, but no code ever assigns
   * them after construction, so a value models the class.
   */
  datatype Vector2i = Vector2i(x: int, y: int)

  /** `add`: a new vector holding the componentwise sums, as Java `int`s. */
  function Add(a: Vector2i, b: Vector2i): (r: Vector2i)
    ensures IsInt(r.x) && IsInt(r.y)
    ensures IsInt(a.x + b.x) ==> r.x == a.x + b.x
    ensures IsInt(a.y + b.y) ==> r.y == a.y + b.y
    ensures (r.x - (a.x + b.x)) % MODULUS == 0 && (r.y - (a.y + b.y)) % MODULUS == 0
  {
    Vector2i(Wrap(a.x + b.x), Wrap(a.y + b.y))
  }

  /** `toString`: "(x, y)". */
  function ToString(v: Vector2i): (s: string)
    ensures |s| >= 6 && s[0] == '(' && s[|s| - 1] == ')'
  {
    "(" + IntToString(v.x) + ", " + IntToString(v.y) + ")"
  }

  /** In "(A, B)" the character right after A is a comma. */
  lemma CommaAfterFirst(a: string, b: string)
    ensures ("(" + a + ", " + b + ")")[1 + |a|] == ','
  {
  }

  /** In "(A, B)" the characters of A sit at indices 1 to |A|. */
  lemma FirstAt(a: string, b: string, k: nat)
    requires k < |a|
    ensures ("(" + a + ", " + b + ")")[1 + k] == a[k]
  {
  }

  /** Splitting "(A, B)" at its first comma recovers A and B when A has no comma. */
  lemma {:induction false} PairTextSplit(a: string, b: string, a': string, b': string)
    requires forall i :: 0 <= i < |a| ==> a[i] != ','
    requires forall i :: 0 <= i < |a'| ==> a'[i] != ','
    requires "(" + a + ", " + b + ")" == "(" + a' + ", " + b' + ")"
    ensures a == a' && b == b'
  {
    var s := "(" + a + ", " + b + ")";
    var s' := "(" + a' + ", " + b' + ")";
    if |a| < |a'| {
      FirstAt(a', b', |a|);
      CommaAfterFirst(a, b);
      assert false;
    } else if |a'| < |a| {
      FirstAt(a, b, |a'|);
      CommaAfterFirst(a', b');
      assert false;
    }
    assert a == s[1..1 + |a|] == s'[1..1 + |a'|] == a';
    assert b == s[3 + |a|..|s| - 1] == s'[3 + |a'|..|s'| - 1] == b';
  }

  /** Distinct vectors print differently. */
  lemma ToStringInjective(v: Vector2i, w: Vector2i)
    requires ToString(v) == ToString(w)
    ensures v == w
  {
    PairTextSplit(IntToString(v.x), IntToString(v.y), IntToString(w.x), IntToString(w.y));
    IntToStringInjective(v.x, w.x);
    IntToStringInjective(v.y, w.y);
  }
}
