/** Shared vocabulary: optional values, outcomes, and finite sums over total columns. */
module Base {

  datatype Option<+T> = None | Some(value: T)

  datatype Result<+T, +E> = Success(value: T) | Failure(error: E)

  /** An account address.  Deriving an address from a public key is injective by construction;
      an unclaimed address is one nobody has shown a key for yet. */
  type PublicKey = string
  datatype Address = OfKey(key: PublicKey) | Unclaimed(number: nat)

  /** A numeric column of the accounts table.  An address without a row reads as the default 0. */
  type Column = imap<Address, int>

  ghost function Get(m: Column, a: Address): int { if a in m then m[a] else 0 }

  ghost function Add(m: Column, a: Address, x: int): Column { m[a := Get(m, a) + x] }

  ghost predicate Full<V>(t: imap<Address, V>) { forall a: Address :: a in t }

  /** The sum of a column over a finite set of addresses. */
  ghost function Sum(U: set<Address>, m: Column): int {
    if U == {} then 0 else
      var a :| a in U;
      Get(m, a) + Sum(U - {a}, m)
  }

  lemma {:induction false} SumSplit(U: set<Address>, m: Column, a: Address)
    requires a in U
    ensures Sum(U, m) == Get(m, a) + Sum(U - {a}, m)
    decreases |U|
  {
    var b :| b in U && Sum(U, m) == Get(m, b) + Sum(U - {b}, m);
    if a != b {
      SumSplit(U - {b}, m, a);
      SumSplit(U - {a}, m, b);
      assert U - {b} - {a} == U - {a} - {b};
    }
  }

  lemma {:induction false} SumSame(U: set<Address>, m: Column, m': Column)
    requires forall a :: a in U ==> Get(m, a) == Get(m', a)
    ensures Sum(U, m) == Sum(U, m')
    decreases |U|
  {
    if U != {} {
      var a :| a in U;
      SumSplit(U, m, a);
      SumSplit(U, m', a);
      SumSame(U - {a}, m, m');
    }
  }

  /** Changing one entry changes the sum by the same amount. */
  lemma SumUpdate(U: set<Address>, m: Column, m': Column, a: Address)
    requires a in U
    requires forall b :: b in U && b != a ==> Get(m, b) == Get(m', b)
    ensures Sum(U, m') == Sum(U, m) - Get(m, a) + Get(m', a)
  {
    SumSplit(U, m, a);
    SumSplit(U, m', a);
    SumSame(U - {a}, m, m');
  }

  /** The sum ignores addresses whose entry is 0, so any support set gives the same total. */
  lemma {:induction false} SumSupport(U: set<Address>, W: set<Address>, m: Column)
    requires U <= W
    requires forall a :: a in W - U ==> Get(m, a) == 0
    ensures Sum(U, m) == Sum(W, m)
    decreases |W|
  {
    if W - U == {} {
      assert U == W by {
        forall a | a in W ensures a in U { assert a !in W - U; }
      }
    } else {
      var a :| a in W - U;
      SumSplit(W, m, a);
      assert (W - {a}) - U <= W - U;
      SumSupport(U, W - {a}, m);
    }
  }
}
