/** The vote checks of modules/delegates.js checkDelegates, and what passing them means. */
module Voting {
  import opened Base
  import opened Diff
  import opened Accounts

  const MAX_VOTES_PER_ACCOUNT: nat := 101

  /** The accounts among the voted addresses that are registered delegates (a set, as the
      accounts query returns each of them once). */
  ghost function Found(conf: SideTable, votes: seq<string>): set<Address> {
    set i | 0 <= i < |votes| && Row(conf, OfKey(Tail(votes[i]))).isDelegate :: OfKey(Tail(votes[i]))
  }

  /** The found accounts some change with this sign names. */
  function Named(found: set<Address>, votes: seq<string>, minus: bool): set<Address> {
    set i | 0 <= i < |votes| && IsMinus(votes[i]) == minus && OfKey(Tail(votes[i])) in found :: OfKey(Tail(votes[i]))
  }

  /** The checks in the source's order, on the found accounts. */
  predicate CheckFound(found: set<Address>, existing: multiset<PublicKey>, votes: seq<string>) {
    && AllSigned(votes)
    && |found| >= |votes|
    && var ups, downs := Named(found, votes, false), Named(found, votes, true);
    && (forall d :: d in existing ==> OfKey(d) !in ups)
    && (forall a :: a in downs ==> a.OfKey? && a.key in existing)
    && |existing| + |ups| - |downs| <= MAX_VOTES_PER_ACCOUNT
  }

  ghost predicate CheckDelegates(conf: SideTable, existing: multiset<PublicKey>, votes: seq<string>) {
    CheckFound(Found(conf, votes), existing, votes)
  }

  function AddressOf(vote: string): Address { OfKey(Tail(vote)) }

  function Count(votes: seq<string>, minus: bool): nat {
    if votes == [] then 0
    else Count(votes[..|votes| - 1], minus) + if IsMinus(votes[|votes| - 1]) == minus then 1 else 0
  }

  /** The voted addresses, as a set. */
  function Addresses(votes: seq<string>): set<Address> {
    set i | 0 <= i < |votes| :: OfKey(Tail(votes[i]))
  }

  lemma AddressesStep(votes: seq<string>)
    requires votes != []
    ensures Addresses(votes) == Addresses(votes[..|votes| - 1]) + {AddressOf(votes[|votes| - 1])}
  {
    var n := |votes| - 1;
    var A, B := Addresses(votes), Addresses(votes[..n]) + {AddressOf(votes[n])};
    forall a | a in A ensures a in B {
      var i :| 0 <= i < |votes| && OfKey(Tail(votes[i])) == a;
      if i < n { assert votes[..n][i] == votes[i]; }
    }
    forall a | a in B ensures a in A {
      if a != AddressOf(votes[n]) {
        var i :| 0 <= i < n && OfKey(Tail(votes[..n][i])) == a;
        assert votes[i] == votes[..n][i];
      }
    }
  }

  /** A list has as many addresses as entries exactly when its keys are distinct. */
  lemma {:induction false} AddressCount(votes: seq<string>)
    requires AllSigned(votes)
    ensures |Addresses(votes)| <= |votes|
    ensures |Addresses(votes)| == |votes| <==> DistinctKeys(votes)
  {
    if votes == [] {
      assert Addresses(votes) == {};
    } else {
      var n := |votes| - 1;
      var pre, a := votes[..n], AddressOf(votes[n]);
      AddressCount(pre);
      AddressesStep(votes);
      if a in Addresses(pre) {
        var i :| 0 <= i < n && OfKey(Tail(pre[i])) == a;
        assert Signed(votes[i]) && Signed(votes[n]) && votes[i] == pre[i];
        assert KeyOf(votes[i]) == KeyOf(votes[n]);
        assert Addresses(votes) == Addresses(pre);
        assert !DistinctKeys(votes);
      } else {
        assert |Addresses(votes)| == |Addresses(pre)| + 1;
        if DistinctKeys(pre) {
          forall i, j | 0 <= i < j < |votes| ensures KeyOf(votes[i]) != KeyOf(votes[j]) {
            assert Signed(votes[i]) && Signed(votes[j]) && votes[i] == pre[i];
            if j == n {
              assert OfKey(Tail(pre[i])) in Addresses(pre);
            } else {
              assert votes[j] == pre[j];
            }
          }
        } else {
          var i, j :| 0 <= i < j < |pre| && KeyOf(pre[i]) == KeyOf(pre[j]);
          assert KeyOf(votes[i]) == KeyOf(votes[j]);
        }
      }
    }
  }

  /** Enough found accounts: every voted key is registered, and no key is voted on twice. */
  lemma FoundAll(conf: SideTable, votes: seq<string>)
    requires AllSigned(votes)
    ensures |Found(conf, votes)| >= |votes| <==>
            DistinctKeys(votes) && forall i :: 0 <= i < |votes| ==> Row(conf, OfKey(KeyOf(votes[i]))).isDelegate
    ensures |Found(conf, votes)| >= |votes| ==> Found(conf, votes) == Addresses(votes)
  {
    var F, A := Found(conf, votes), Addresses(votes);
    AddressCount(votes);
    assert F <= A;
    SubsetCard(F, A);
    if |F| >= |votes| {
      assert F == A;
      forall i | 0 <= i < |votes| ensures Row(conf, OfKey(KeyOf(votes[i]))).isDelegate {
        assert Signed(votes[i]) && OfKey(Tail(votes[i])) in A;
      }
    }
    if forall i :: 0 <= i < |votes| ==> Row(conf, OfKey(KeyOf(votes[i]))).isDelegate {
      forall a | a in A ensures a in F {
        var i :| 0 <= i < |votes| && OfKey(Tail(votes[i])) == a;
        assert Signed(votes[i]) && Row(conf, OfKey(KeyOf(votes[i]))).isDelegate;
      }
      assert F == A;
    }
  }

  lemma {:induction false} SubsetCard<T>(a: set<T>, b: set<T>)
    requires a <= b
    ensures |a| <= |b|
    ensures |a| == |b| ==> a == b
  {
    var c := b - a;
    assert b == a + c && a !! c;
    assert |b| == |a| + |c|;
  }

  lemma NamedStep(votes: seq<string>, minus: bool)
    requires votes != [] && AllSigned(votes) && DistinctKeys(votes)
    ensures var n := |votes| - 1;
            var a, M := AddressOf(votes[n]), Named(Addresses(votes[..n]), votes[..n], minus);
            && a !in M
            && Named(Addresses(votes), votes, minus) == if IsMinus(votes[n]) == minus then M + {a} else M
  {
    hide IsMinus;
    var n := |votes| - 1;
    var pre, a := votes[..n], AddressOf(votes[n]);
    var N, M := Named(Addresses(votes), votes, minus), Named(Addresses(pre), pre, minus);
    forall x | x in M ensures x in N && x != a {
      var i :| 0 <= i < n && IsMinus(pre[i]) == minus && OfKey(Tail(pre[i])) == x;
      assert votes[i] == pre[i] && Signed(votes[i]) && Signed(votes[n]);
      assert KeyOf(votes[i]) != KeyOf(votes[n]);
      assert OfKey(Tail(votes[i])) in Addresses(votes);
    }
    forall x | x in N && (x != a || IsMinus(votes[n]) != minus) ensures x in M {
      var i :| 0 <= i < |votes| && IsMinus(votes[i]) == minus && OfKey(Tail(votes[i])) == x;
      assert Signed(votes[i]) && Signed(votes[n]);
      assert i < n && pre[i] == votes[i];
      assert OfKey(Tail(pre[i])) in Addresses(pre);
    }
    if IsMinus(votes[n]) == minus {
      assert OfKey(Tail(votes[n])) in Addresses(votes);
      assert a in N;
    }
  }

  lemma {:induction false} NamedAll(votes: seq<string>, minus: bool)
    requires AllSigned(votes) && DistinctKeys(votes)
    ensures |Named(Addresses(votes), votes, minus)| == Count(votes, minus)
  {
    if votes == [] {
      assert Named(Addresses(votes), votes, minus) == {};
    } else {
      hide Addresses, IsMinus, Named;
      NamedAll(votes[..|votes| - 1], minus);
      NamedStep(votes, minus);
    }
  }

  lemma {:induction false} CardinalityAfter(ds: multiset<PublicKey>, votes: seq<string>)
    requires DistinctKeys(votes) && NoDuplicates(ds) && Fits(ds, votes)
    ensures |ApplyDiff(ds, votes)| == |ds| + Count(votes, false) - Count(votes, true)
  {
    if votes != [] {
      var n := |votes| - 1;
      var pre := votes[..n];
      assert forall i :: 0 <= i < n ==> pre[i] == votes[i];
      CardinalityAfter(ds, pre);
      ApplyDiffAt(ds, pre, KeyOf(votes[n]));
      var mid, d := ApplyDiff(ds, pre), KeyOf(votes[n]);
      assert mid[d] == ds[d];
      if IsMinus(votes[n]) {
        assert mid[d] == 1;
        assert mid == mid[d := 0] + multiset{d};
      }
    }
  }

  lemma VotesSplit(ds: multiset<PublicKey>, votes: seq<string>)
    requires AllSigned(votes)
    ensures Fits(ds, votes) <==>
            && (forall d :: d in ds ==> OfKey(d) !in Named(Addresses(votes), votes, false))
            && (forall a :: a in Named(Addresses(votes), votes, true) ==> a.OfKey? && a.key in ds)
  {
    var ups, downs := Named(Addresses(votes), votes, false), Named(Addresses(votes), votes, true);
    if Fits(ds, votes) {
      forall d | d in ds ensures OfKey(d) !in ups {
        assert forall i :: 0 <= i < |votes| && Tail(votes[i]) == d ==> Signed(votes[i]) && KeyOf(votes[i]) == d;
      }
      forall a | a in downs ensures a.OfKey? && a.key in ds {
        var i :| 0 <= i < |votes| && IsMinus(votes[i]) == true && OfKey(Tail(votes[i])) == a;
        assert Signed(votes[i]) && KeyOf(votes[i]) == a.key;
      }
    } else {
      var i :| 0 <= i < |votes| && !(IsMinus(votes[i]) <==> KeyOf(votes[i]) in ds);
      assert Signed(votes[i]) && OfKey(Tail(votes[i])) in Addresses(votes);
      if IsMinus(votes[i]) {
        assert OfKey(KeyOf(votes[i])) in downs;
      } else {
        assert OfKey(KeyOf(votes[i])) in ups;
      }
    }
  }

  /** Passing the checks means exactly: signed changes on distinct registered keys, added keys new
      and removed keys present, and at most 101 votes afterwards. */
  lemma CheckDelegatesIff(conf: SideTable, existing: multiset<PublicKey>, votes: seq<string>)
    requires NoDuplicates(existing)
    ensures CheckDelegates(conf, existing, votes) <==>
            && AllSigned(votes) && DistinctKeys(votes) && Fits(existing, votes)
            && (forall i :: 0 <= i < |votes| ==> Row(conf, OfKey(KeyOf(votes[i]))).isDelegate)
            && |ApplyDiff(existing, votes)| <= MAX_VOTES_PER_ACCOUNT
  {
    hide ApplyDiff, Fits, Named, Addresses, Found, Row;
    if AllSigned(votes) {
      FoundAll(conf, votes);
      VotesSplit(existing, votes);
      if |Found(conf, votes)| >= |votes| {
        NamedAll(votes, false);
        NamedAll(votes, true);
        if Fits(existing, votes) {
          CardinalityAfter(existing, votes);
        }
      }
    }
  }

  /** An accepted list keeps an account's votes duplicate-free and within the limit, only adds
      registered keys, and reversing it gives the original votes back. */
  lemma AcceptedVotes(conf: SideTable, existing: multiset<PublicKey>, votes: seq<string>)
    requires NoDuplicates(existing) && CheckDelegates(conf, existing, votes)
    ensures NoDuplicates(ApplyDiff(existing, votes)) && |ApplyDiff(existing, votes)| <= MAX_VOTES_PER_ACCOUNT
    ensures forall d :: d in ApplyDiff(existing, votes) ==> d in existing || Row(conf, OfKey(d)).isDelegate
    ensures ApplyDiff(ApplyDiff(existing, votes), Reversed(votes)) == existing
  {
    CheckDelegatesIff(conf, existing, votes);
    FittingDiff(existing, votes);
    UndoRestoresIff(existing, votes);
    forall d | d in ApplyDiff(existing, votes) ensures d in existing || Row(conf, OfKey(d)).isDelegate {
      ApplyDiffAt(existing, votes, d);
      if i :| 0 <= i < |votes| && KeyOf(votes[i]) == d {
        assert Row(conf, OfKey(KeyOf(votes[i]))).isDelegate;
      }
    }
  }
}
