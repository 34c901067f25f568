/** The random number generator of user/grind.c: one step of Park and Miller's generator, by Schrage's method. */
module ParkMiller {
  import opened Modular

  const M: int := 0x7fff_ffff
  const A: int := 16807
  /** The inverse of A modulo M. */
  const B: int := 1407677000

  /** The step as a mathematical function: x is (ctx mod M - 1) + 1, which lies from 1 to M - 1. */
  function Step(ctx: nat): (r: int)
    ensures 0 <= r <= M - 2
  {
    Times(A, ctx % (M - 1) + 1) - 1
  }

  /** The product of a unit and a number that is not a multiple of M is not a multiple of M. */
  function Times(a: int, x: int): (y: int)
    requires (a == A || a == B) && 0 < x < M
    ensures 0 < y < M
  {
    Undo(a, x);
    (a * x) % M
  }

  /** Multiplying by A and by B are inverse to each other. */
  lemma Undo(a: int, x: int)
    requires (a == A || a == B) && 0 < x < M
    ensures 0 < (a * x) % M < M && ((A * B / a) * ((a * x) % M)) % M == x
  {
    var y, q := (a * x) % M, (a * x) / M;
    assert a * x == M * q + y;
    var b := if a == A then B else A;
    assert A * B == 11017 * M + 1;
    assert b * y == x + M * (11017 * x - b * q);
    ModIs(b * y, M, 11017 * x - b * q, x);
    assert A * B / a == b;
  }

  /** The step is a permutation of the states 0 to M - 2: multiplying by B leads back. */
  lemma StepPermutes(s: nat)
    requires s <= M - 2
    ensures Times(B, Step(s) + 1) - 1 == s
    ensures Step(Times(B, s + 1) - 1) == s
  {
    Undo(A, s + 1);
    Undo(B, s + 1);
    assert A * B / A == B && A * B / B == A;
  }

  /** Every number fits 31 bits and a sign. */
  predicate Fits(x: int) {
    -0x8000_0000 < x < 0x8000_0000
  }

  /** do_rand(), for any 64-bit state. */
  method DoRand(ctx: nat) returns (next: nat)
    requires ctx < 0x1_0000_0000_0000_0000
    ensures next == Step(ctx)
  {
    var x := ctx % 0x7fff_fffe + 1;
    var hi, lo := x / 127773, x % 127773;
    x := 16807 * lo - 2836 * hi;
    Schrage(ctx % 0x7fff_fffe + 1);
    if x < 0 {
      x := x + 0x7fff_ffff;
    }
    x := x - 1;
    next := x;
  }

  /** A * x modulo M without forming the product: no intermediate result exceeds 31 bits. */
  lemma Schrage(x: int)
    requires 0 < x < M
    ensures Fits(16807 * (x % 127773)) && Fits(2836 * (x / 127773)) && Fits(16807 * (x % 127773) - 2836 * (x / 127773))
    ensures var y := 16807 * (x % 127773) - 2836 * (x / 127773); (if y < 0 then y + M else y) == Times(A, x)
  {
    var hi, lo := x / 127773, x % 127773;
    var y := 16807 * lo - 2836 * hi;
    assert A * x == y + M * hi;
    var z := if y < 0 then y + M else y;
    ModIs(A * x, M, if y < 0 then hi - 1 else hi, z);
  }
}
