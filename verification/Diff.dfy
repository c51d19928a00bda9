/** Signed key lists (helpers/diff.js) and what applying one does to a table of keys. */
module Diff {
  import opened Base

  /** A change removes its key when it starts with '-'; everything else adds it. */
  predicate IsMinus(c: string) { |c| > 0 && c[0] == '-' }

  predicate Signed(c: string) { |c| > 0 && (c[0] == '+' || c[0] == '-') }

  /** The key a change is about: the sign is dropped when there is one. */
  function KeyOf(c: string): PublicKey {
    if Signed(c) then c[1..] else c
  }

  /** JavaScript's slice(1). */
  function Tail(c: string): string { if |c| == 0 then "" else c[1..] }

  function Flip(c: string): (r: string)
    ensures Signed(c) ==> Signed(r) && IsMinus(r) != IsMinus(c) && KeyOf(r) == KeyOf(c)
  {
    (if IsMinus(c) then "+" else "-") + Tail(c)
  }

  function Reversed(diff: seq<string>): (r: seq<string>)
    ensures |r| == |diff|
    ensures forall i :: 0 <= i < |diff| ==> r[i] == Flip(diff[i])
  {
    seq(|diff|, i requires 0 <= i < |diff| => Flip(diff[i]))
  }

  /** helpers/diff.js reverse: flips every sign in a copy of the list. */
  method Reverse(diff: seq<string>) returns (copyDiff: seq<string>)
    ensures copyDiff == Reversed(diff)
  {
    copyDiff := diff;
    var i := 0;
    while i < |copyDiff|
      invariant 0 <= i <= |copyDiff| == |diff|
      invariant copyDiff[..i] == Reversed(diff)[..i]
      invariant copyDiff[i..] == diff[i..]
    {
      var math := if IsMinus(copyDiff[i]) then "+" else "-";
      var flipped := math + Tail(copyDiff[i]);
      assert copyDiff[i] == diff[i];
      copyDiff := copyDiff[i := flipped];
      i := i + 1;
    }
  }

  /** One change applied to a dependency table: '-' deletes every row with the key, '+' inserts one. */
  function Change(ds: multiset<PublicKey>, c: string): multiset<PublicKey> {
    if IsMinus(c) then ds[KeyOf(c) := 0] else ds + multiset{KeyOf(c)}
  }

  function ApplyDiff(ds: multiset<PublicKey>, diff: seq<string>): multiset<PublicKey> {
    if diff == [] then ds
    else Change(ApplyDiff(ds, diff[..|diff| - 1]), diff[|diff| - 1])
  }

  /** Insertions minus removals of one key. */
  function Net(diff: seq<string>, d: PublicKey): int {
    if diff == [] then 0
    else
      var c := diff[|diff| - 1];
      Net(diff[..|diff| - 1], d) + if KeyOf(c) != d then 0 else if IsMinus(c) then -1 else 1
  }

  predicate DistinctKeys(diff: seq<string>) {
    forall i, j :: 0 <= i < j < |diff| ==> KeyOf(diff[i]) != KeyOf(diff[j])
  }

  predicate AllSigned(diff: seq<string>) { forall i :: 0 <= i < |diff| ==> Signed(diff[i]) }

  predicate NoDuplicates(ds: multiset<PublicKey>) { forall d :: d in ds ==> ds[d] == 1 }

  /** Every '+' key is new to the table and every '-' key is in it. */
  predicate Fits(ds: multiset<PublicKey>, diff: seq<string>) {
    forall i :: 0 <= i < |diff| ==> (IsMinus(diff[i]) <==> KeyOf(diff[i]) in ds)
  }

  lemma ReversedShape(diff: seq<string>)
    requires AllSigned(diff)
    ensures AllSigned(Reversed(diff))
    ensures DistinctKeys(diff) ==> DistinctKeys(Reversed(diff))
  {
    var r := Reversed(diff);
    forall i | 0 <= i < |r| ensures KeyOf(r[i]) == KeyOf(diff[i]) && Signed(r[i]) {
      assert Signed(diff[i]);
    }
  }

  /** Flipping the signs twice gives the list back. */
  lemma ReverseInvolutive(diff: seq<string>)
    requires AllSigned(diff)
    ensures Reversed(Reversed(diff)) == diff
  {
    forall i | 0 <= i < |diff| ensures Reversed(Reversed(diff))[i] == diff[i] {
      assert Signed(diff[i]);
      assert diff[i] == [diff[i][0]] + diff[i][1..];
    }
  }

  /** With distinct keys each table entry is decided by the one change that names it. */
  lemma {:induction false} ApplyDiffAt(ds: multiset<PublicKey>, diff: seq<string>, d: PublicKey)
    requires DistinctKeys(diff)
    ensures (forall i :: 0 <= i < |diff| ==> KeyOf(diff[i]) != d) ==>
              ApplyDiff(ds, diff)[d] == ds[d] && Net(diff, d) == 0
    ensures forall i :: 0 <= i < |diff| && KeyOf(diff[i]) == d ==>
              && ApplyDiff(ds, diff)[d] == (if IsMinus(diff[i]) then 0 else ds[d] + 1)
              && Net(diff, d) == (if IsMinus(diff[i]) then -1 else 1)
  {
    if diff != [] {
      var n := |diff| - 1;
      ApplyDiffAt(ds, diff[..n], d);
      forall i | 0 <= i < |diff| && KeyOf(diff[i]) == d
        ensures ApplyDiff(ds, diff)[d] == (if IsMinus(diff[i]) then 0 else ds[d] + 1)
        ensures Net(diff, d) == (if IsMinus(diff[i]) then -1 else 1)
      {
        if i < n {
          assert diff[..n][i] == diff[i];
          assert KeyOf(diff[n]) != d;
        } else {
          assert forall j :: 0 <= j < n ==> KeyOf(diff[..n][j]) != d;
        }
      }
    }
  }

  /** A fitting list changes each multiplicity by its net count, and keeps the table duplicate-free. */
  lemma FittingDiff(ds: multiset<PublicKey>, diff: seq<string>)
    requires DistinctKeys(diff) && Fits(ds, diff) && NoDuplicates(ds)
    ensures NoDuplicates(ApplyDiff(ds, diff))
    ensures forall d :: ApplyDiff(ds, diff)[d] == ds[d] + Net(diff, d)
  {
    forall d ensures ApplyDiff(ds, diff)[d] == ds[d] + Net(diff, d) && ApplyDiff(ds, diff)[d] <= 1 {
      ApplyDiffAt(ds, diff, d);
      if i :| 0 <= i < |diff| && KeyOf(diff[i]) == d {
        assert IsMinus(diff[i]) <==> d in ds;
      }
    }
  }

  lemma {:induction false} NetReversed(diff: seq<string>, d: PublicKey)
    requires AllSigned(diff)
    ensures Net(Reversed(diff), d) == -Net(diff, d)
  {
    if diff != [] {
      var n := |diff| - 1;
      NetReversed(diff[..n], d);
      assert Reversed(diff)[..n] == Reversed(diff[..n]);
      assert Signed(diff[n]);
    }
  }

  /** Undoing a vote list gives the table back exactly when the list fitted the table. */
  lemma UndoRestoresIff(ds: multiset<PublicKey>, diff: seq<string>)
    requires AllSigned(diff) && DistinctKeys(diff) && NoDuplicates(ds)
    ensures ApplyDiff(ApplyDiff(ds, diff), Reversed(diff)) == ds <==> Fits(ds, diff)
  {
    var mid, r := ApplyDiff(ds, diff), Reversed(diff);
    ReversedShape(diff);
    assert forall i :: 0 <= i < |diff| ==> KeyOf(r[i]) == KeyOf(diff[i]) && IsMinus(r[i]) != IsMinus(diff[i]) by {
      forall i | 0 <= i < |diff| ensures KeyOf(r[i]) == KeyOf(diff[i]) && IsMinus(r[i]) != IsMinus(diff[i]) {
        assert Signed(diff[i]);
      }
    }
    forall i | 0 <= i < |diff|
      ensures ApplyDiff(mid, r)[KeyOf(diff[i])] == ds[KeyOf(diff[i])] <==> (IsMinus(diff[i]) <==> KeyOf(diff[i]) in ds)
    {
      ApplyDiffAt(ds, diff, KeyOf(diff[i]));
      ApplyDiffAt(mid, r, KeyOf(diff[i]));
      assert KeyOf(r[i]) == KeyOf(diff[i]);
    }
    if Fits(ds, diff) {
      forall d ensures ApplyDiff(mid, r)[d] == ds[d] {
        ApplyDiffAt(ds, diff, d);
        ApplyDiffAt(mid, r, d);
        if i :| 0 <= i < |diff| && KeyOf(diff[i]) == d {
        } else {
          assert forall i :: 0 <= i < |r| ==> KeyOf(r[i]) != d;
        }
      }
    } else {
      var i :| 0 <= i < |diff| && !(IsMinus(diff[i]) <==> KeyOf(diff[i]) in ds);
      assert ApplyDiff(mid, r)[KeyOf(diff[i])] != ds[KeyOf(diff[i])];
    }
  }
}
