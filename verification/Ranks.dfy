/** Ranks as the read API compares them: tuples of equal length, from the left. */
module Ranks {
  predicate Less(a: seq<int>, b: seq<int>) {
    a != [] && b != [] && (a[0] < b[0] || (a[0] == b[0] && Less(a[1..], b[1..])))
  }

  lemma {:induction false} LessIsTotal(a: seq<int>, b: seq<int>)
    requires |a| == |b|
    ensures Less(a, b) || Less(b, a) || a == b
    ensures !(Less(a, b) && Less(b, a)) && !Less(a, a)
  {
    if a != [] {
      LessIsTotal(a[1..], b[1..]);
      assert a == [a[0]] + a[1..] && b == [b[0]] + b[1..];
    }
  }

  lemma {:induction false} LessIsTransitive(a: seq<int>, b: seq<int>, c: seq<int>)
    requires Less(a, b) && Less(b, c)
    ensures Less(a, c)
  {
    if a[0] == b[0] == c[0] {
      LessIsTransitive(a[1..], b[1..], c[1..]);
    }
  }

  /** What is not above a is not above anything above a. */
  lemma StillAbove(x: seq<int>, a: seq<int>, b: seq<int>)
    requires |x| == |a| == |b| && !Less(a, x) && Less(a, b)
    ensures !Less(b, x)
  {
    LessIsTotal(a, x);
    LessIsTotal(b, x);
    if Less(b, x) {
      LessIsTransitive(a, b, x);
    }
  }

  lemma LessFirst(x: int, a: seq<int>, y: int, b: seq<int>)
    ensures Less([x] + a, [y] + b) <==> x < y || (x == y && Less(a, b))
  {
    assert ([x] + a)[1..] == a && ([y] + b)[1..] == b;
  }

  /** The order on triples, written out. */
  lemma LessOfThree(a: int, b: int, c: int, x: int, y: int, z: int)
    ensures Less([a, b, c], [x, y, z]) <==> a < x || (a == x && (b < y || (b == y && c < z)))
  {
    LessFirst(c, [], z, []);
    LessFirst(b, [c], y, [z]);
    LessFirst(a, [b, c], x, [y, z]);
    assert [a] + [b, c] == [a, b, c] && [x] + [y, z] == [x, y, z];
    assert [b] + [c] == [b, c] && [y] + [z] == [y, z] && [c] + [] == [c] && [z] + [] == [z];
  }

  lemma LessOfFive(p: int, q: int, a: int, b: int, c: int, r: int, s: int, x: int, y: int, z: int)
    ensures Less([p, q, a, b, c], [r, s, x, y, z])
            <==> p < r || (p == r && (q < s || (q == s && Less([a, b, c], [x, y, z]))))
  {
    LessFirst(q, [a, b, c], s, [x, y, z]);
    LessFirst(p, [q, a, b, c], r, [s, x, y, z]);
    assert [p] + [q, a, b, c] == [p, q, a, b, c] && [r] + [s, x, y, z] == [r, s, x, y, z];
    assert [q] + [a, b, c] == [q, a, b, c] && [s] + [x, y, z] == [s, x, y, z];
  }
}
