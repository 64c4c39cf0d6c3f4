/** A list hashed without regard to order, as the hash library does it (mitchellh/hashstructure). */
module UnorderedHash {

  // ---------------------------------------------------------------- exclusive or

  /** Bit by bit exclusive or. */
  function Xor(a: nat, b: nat): nat {
    if a == 0 then b
    else if b == 0 then a
    else 2 * Xor(a / 2, b / 2) + if a % 2 == b % 2 then 0 else 1
  }

  lemma XorBits(a: nat, b: nat)
    ensures Xor(a, b) / 2 == Xor(a / 2, b / 2)
    ensures Xor(a, b) % 2 == 0 <==> a % 2 == b % 2
  {
  }

  lemma {:induction false} XorCommutes(a: nat, b: nat)
    ensures Xor(a, b) == Xor(b, a)
  {
    if a != 0 && b != 0 { XorCommutes(a / 2, b / 2); }
  }

  lemma SameBits(x: nat, y: nat)
    requires x / 2 == y / 2 && (x % 2 == 0 <==> y % 2 == 0)
    ensures x == y
  {
  }

  /** One step of associativity, with the inner results and their halves named. */
  lemma AssociatesStep(a: nat, c: nat, ab: nat, bc: nat, half: nat, half': nat)
    requires ab / 2 == half && bc / 2 == half' && Xor(half, c / 2) == Xor(a / 2, half')
    requires (ab % 2 == c % 2) <==> (a % 2 == bc % 2)
    ensures Xor(ab, c) == Xor(a, bc)
  {
    XorBits(ab, c);
    XorBits(a, bc);
    SameBits(Xor(ab, c), Xor(a, bc));
  }

  lemma {:induction false} XorAssociates(a: nat, b: nat, c: nat)
    ensures Xor(Xor(a, b), c) == Xor(a, Xor(b, c))
    decreases a + b + c
  {
    if a != 0 && b != 0 && c != 0 {
      XorAssociates(a / 2, b / 2, c / 2);
      XorBits(a, b);
      XorBits(b, c);
      AssociatesStep(a, c, Xor(a, b), Xor(b, c), Xor(a / 2, b / 2), Xor(b / 2, c / 2));
    }
  }

  lemma {:induction false} XorCancels(a: nat)
    ensures Xor(a, a) == 0
  {
    if a != 0 { XorCancels(a / 2); }
  }

  lemma {:induction false} XorZeroMeansEqual(a: nat, b: nat)
    requires Xor(a, b) == 0
    ensures a == b
  {
    if a != 0 && b != 0 { XorZeroMeansEqual(a / 2, b / 2); }
  }

  lemma XorPair(x: nat, y: nat, z: nat)
    ensures Xor(Xor(Xor(x, y), x), z) == Xor(y, z)
  {
    XorCommutes(x, y);
    XorAssociates(y, x, x);
    XorCancels(x);
    XorCommutes(y, 0);
  }

  // ---------------------------------------------------------------- hashing a list

  /** The hashes of the elements, combined one after the other. */
  function Digest<T>(hash: T -> nat, xs: seq<T>): nat {
    if xs == [] then 0
    else
      var n := |xs| - 1;
      Xor(Digest(hash, xs[..n]), hash(xs[n]))
  }

  /** The elements that occur an odd number of times. */
  function Odd<T(==)>(xs: seq<T>): set<T> {
    set x | x in xs && multiset(xs)[x] % 2 == 1
  }

  lemma DigestLast<T>(hash: T -> nat, xs: seq<T>, x: T)
    ensures Digest(hash, xs + [x]) == Xor(Digest(hash, xs), hash(x))
  {
    assert (xs + [x])[..|xs|] == xs;
  }

  lemma {:induction false} DigestConcat<T>(hash: T -> nat, a: seq<T>, b: seq<T>)
    ensures Digest(hash, a + b) == Xor(Digest(hash, a), Digest(hash, b))
  {
    if b == [] {
      assert a + b == a;
      XorCommutes(Digest(hash, a), 0);
    } else {
      var n := |b| - 1;
      DigestConcat(hash, a, b[..n]);
      assert a + b == a + b[..n] + [b[n]];
      DigestLast(hash, a + b[..n], b[n]);
      XorAssociates(Digest(hash, a), Digest(hash, b[..n]), hash(b[n]));
    }
  }

  lemma DigestOne<T>(hash: T -> nat, x: T)
    ensures Digest(hash, [x]) == hash(x)
  {
    assert [x][..0] == [];
  }

  /** Two equal elements cancel, wherever they stand. */
  lemma PairCancels<T>(hash: T -> nat, x: T, a: seq<T>, b: seq<T>)
    ensures Digest(hash, [x] + a + [x] + b) == Digest(hash, a + b)
  {
    DigestOne(hash, x);
    DigestConcat(hash, [x], a);
    DigestLast(hash, [x] + a, x);
    DigestConcat(hash, [x] + a + [x], b);
    DigestConcat(hash, a, b);
    XorPair(hash(x), Digest(hash, a), Digest(hash, b));
  }

  lemma Repeated<T>(xs: seq<T>) returns (j: nat)
    requires xs != [] && multiset(xs)[xs[0]] % 2 == 0
    ensures 1 <= j < |xs| && xs[j] == xs[0]
  {
    assert xs == [xs[0]] + xs[1..];
    assert multiset(xs)[xs[0]] == 1 + multiset(xs[1..])[xs[0]];
    assert xs[0] in xs[1..];
    j :| 1 <= j < |xs| && xs[j] == xs[0];
  }

  lemma WithoutPair<T>(x: T, a: seq<T>, b: seq<T>, y: T)
    ensures multiset([x] + a + [x] + b)[y] % 2 == multiset(a + b)[y] % 2
  {
    assert multiset([x] + a + [x] + b)[y] == multiset(a + b)[y] + if x == y then 2 else 0;
  }

  /** If every element occurs an even number of times, nothing is left. */
  lemma {:induction false} EvenDigestsToNothing<T(!new)>(hash: T -> nat, xs: seq<T>)
    requires forall x :: multiset(xs)[x] % 2 == 0
    ensures Digest(hash, xs) == 0
    decreases |xs|
  {
    if xs != [] {
      var j := Repeated(xs);
      var x, a, b := xs[0], xs[1..j], xs[j + 1..];
      assert xs == [x] + a + [x] + b;
      PairCancels(hash, x, a, b);
      forall y
        ensures multiset(a + b)[y] % 2 == 0
      {
        WithoutPair(x, a, b, y);
      }
      EvenDigestsToNothing(hash, a + b);
    }
  }

  lemma OddOnceIsEvenTogether<T>(a: seq<T>, b: seq<T>, x: T)
    requires Odd(a) == Odd(b)
    ensures multiset(a + b)[x] % 2 == 0
  {
    assert multiset(a + b)[x] == multiset(a)[x] + multiset(b)[x];
    assert x in Odd(a) <==> multiset(a)[x] % 2 == 1;
    assert x in Odd(b) <==> multiset(b)[x] % 2 == 1;
  }

  /** Whatever the hash of an element, the digest shows no more than which elements occur an odd number of times. */
  lemma DigestSeesOddOnly<T(!new)>(hash: T -> nat, a: seq<T>, b: seq<T>)
    requires Odd(a) == Odd(b)
    ensures Digest(hash, a) == Digest(hash, b)
  {
    forall x
      ensures multiset(a + b)[x] % 2 == 0
    {
      OddOnceIsEvenTogether(a, b, x);
    }
    EvenDigestsToNothing(hash, a + b);
    DigestConcat(hash, a, b);
    XorZeroMeansEqual(Digest(hash, a), Digest(hash, b));
  }
}
