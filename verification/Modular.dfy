/** Remainders, for counters that wrap around. */
module Modular {

  lemma NoMultiple(d: int, m: int)
    requires -m < d * m < m
    ensures d == 0
  {
    assert d > 0 ==> d * m >= m;
    assert d < 0 ==> d * m <= -m;
  }

  lemma ModIs(x: int, m: int, q: int, z: int)
    requires 0 <= z < m && x == q * m + z
    ensures x % m == z
  {
    var d := q - x / m;
    assert x == x / m * m + x % m;
    assert d * m == x % m - z by {
      assert d * m == q * m - x / m * m;
    }
    NoMultiple(d, m);
  }

  lemma DivIs(x: int, m: int, q: int, z: int)
    requires 0 <= z < m && x == q * m + z
    ensures x / m == q
  {
    ModIs(x, m, q, z);
    var d := q - x / m;
    assert d * m == 0 by {
      assert x == x / m * m + x % m;
      assert d * m == q * m - x / m * m;
    }
    NoMultiple(d, m);
  }

  /** A counter that wraps at a multiple of size keeps its slot in a ring of that size. */
  lemma SlotOfCount(x: nat, wrap: nat, size: nat, k: nat)
    requires size > 0 && wrap > 0 && wrap == k * size
    ensures x % wrap % size == x % size
  {
    var q, y := x / wrap, x % wrap;
    var c, z := y / size, y % size;
    assert x == (q * k + c) * size + z by {
      assert x == q * wrap + y && y == c * size + z;
      assert q * wrap == q * k * size;
    }
    ModIs(x, size, q * k + c, z);
  }

  /** Adding to a counter before or after it wraps is the same. */
  lemma NextCount(x: nat, d: nat, wrap: nat)
    requires wrap > 0
    ensures (x % wrap + d) % wrap == (x + d) % wrap
  {
    var q, y := x / wrap, x % wrap;
    var c, z := (y + d) / wrap, (y + d) % wrap;
    assert x + d == (q + c) * wrap + z by {
      assert x == q * wrap + y && y + d == c * wrap + z;
    }
    ModIs(x + d, wrap, q + c, z);
  }

  /** Counters less than wrap apart are equal after wrapping exactly if they are equal. */
  lemma CountsEqual(a: nat, b: nat, wrap: nat)
    requires a <= b < a + wrap
    ensures a % wrap == b % wrap <==> a == b
  {
    if a % wrap == b % wrap {
      var d := b / wrap - a / wrap;
      assert d * wrap == b - a by {
        assert a == a / wrap * wrap + a % wrap && b == b / wrap * wrap + b % wrap;
        assert d * wrap == b / wrap * wrap - a / wrap * wrap;
      }
      NoMultiple(d, wrap);
    }
  }
}
