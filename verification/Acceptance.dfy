/**
  Which transactions are let through, in numbers: what verifying one asks, how many signatures it needs, and what is
  checked when either half of it is applied.
 */
module Acceptance {
  import opened Base
  import opened Diff
  import opened Accounts
  import opened Voting
  import opened Ledger

  // ---------- signatures ----------

  /** An account with a group needs the signatures its group asks for, whatever it sends; an account without one needs
      none, unless it registers its group, which every key of the group has to sign. */
  predicate Countersigned(s: Side, tx: Transaction) {
    if s.multisignatures != multiset{} then tx.signatures.Some? && s.multimin <= tx.signatures.value
    else tx.asset.Multisignature? ==> tx.signatures == Some(|tx.asset.keysgroup|)
  }

  lemma ReadyIff(s: Side, tx: Transaction)
    ensures Ready(s, tx) <==> Countersigned(s, tx)
  {
  }

  /** At the threshold of a group: a transfer it can pay is accepted with as many signatures as its group asks for,
      and with one less, or no array at all, it is not.  A group is registered with one signature per key, no fewer
      and no more. */
  lemma SignatureThreshold(s: Accts, tx: Transaction, count: nat)
    requires Row(s.conf, tx.From()).balance >= tx.amount + tx.fee
    ensures var group := Row(s.conf, tx.From());
            && (tx.asset.Send? && group.multisignatures == multiset{} ==> CAllowed(s, tx, false))
            && (tx.asset.Send? && group.multisignatures != multiset{} ==>
                  && (CAllowed(s, tx.(signatures := Some(count)), false) <==> count >= group.multimin)
                  && !CAllowed(s, tx.(signatures := None), false))
            && (tx.asset.Multisignature? && group.multisignatures == multiset{} ==>
                  && (CAllowed(s, tx.(signatures := Some(count)), false) <==> count == |tx.asset.keysgroup|)
                  && !CAllowed(s, tx.(signatures := None), false))
  {
    hide Row;
  }

  lemma ConfirmedSigned(s: Accts, tx: Transaction, genesis: bool)
    ensures var sender := Row(s.conf, tx.From());
            && (CAllowed(s, tx, genesis) ==> Countersigned(sender, tx))
            && (tx.asset.Send? || tx.asset.Multisignature? ==>
                  (CAllowed(s, tx, genesis) <==>
                     (genesis || sender.balance >= tx.amount + tx.fee) && Countersigned(sender, tx)))
  {
    hide Row, CheckDelegates, UsernameFree;
    ReadyIff(Row(s.conf, tx.From()), tx);
  }

  // ---------- votes ----------

  /** Changes that can be made to these votes: signed, no key twice, registered delegates only, added keys not voted
      for yet, removed ones voted for, and no more than 101 in the end. */
  ghost predicate ChangesFit(conf: SideTable, votes: multiset<PublicKey>, vs: seq<string>) {
    && (forall i :: 0 <= i < |vs| ==> |vs[i]| > 0 && vs[i][0] in {'+', '-'})
    && (forall i, j :: 0 <= i < j < |vs| ==> vs[i][1..] != vs[j][1..])
    && (forall i :: 0 <= i < |vs| ==> Row(conf, OfKey(vs[i][1..])).isDelegate)
    && (forall i :: 0 <= i < |vs| ==> (vs[i][0] == '+' <==> vs[i][1..] !in votes))
    && |ApplyDiff(votes, vs)| <= 101
  }

  lemma ChangesFitIff(conf: SideTable, votes: multiset<PublicKey>, vs: seq<string>)
    requires NoDuplicates(votes)
    ensures CheckDelegates(conf, votes, vs) <==> ChangesFit(conf, votes, vs)
  {
    hide ApplyDiff, Row, CheckDelegates, NoDuplicates;
    CheckDelegatesIff(conf, votes, vs);
  }

  // ---------- verifying ----------

  /** Nobody has this name. */
  ghost predicate NameFree(conf: SideTable, username: string) {
    forall a: Address :: Row(conf, a).username != Some(username)
  }

  /** What verifying asks of a transaction of each type, fees in beddows. */
  lemma VerifiedIff(s: Accts, genesisKey: PublicKey, tx: Transaction)
    requires NoDuplicates(Row(s.conf, tx.From()).delegates)
    ensures var row := Row(s.conf, tx.From());
            Verified(s, genesisKey, tx) <==>
            && tx.sender != genesisKey && tx.amount >= 0 && row.balance >= tx.amount + tx.fee
            && match tx.asset
               case Send(_) => tx.fee == 10000000 && tx.amount > 0
               case SecondSignature(_) => tx.fee == 500000000 && tx.amount == 0
               case Registration(u) =>
                 tx.fee == 2500000000 && tx.amount == 0 && !row.isDelegate && NameFree(s.conf, u)
               case Votes(vs) => tx.fee == 100000000 && 1 <= |vs| <= 33 && ChangesFit(s.conf, row.delegates, vs)
               case Multisignature(ks, min, life) =>
                 && tx.fee == 500000000 + 500000000 * |ks| && row.multisignatures == multiset{}
                 && 1 <= |ks| && 1 <= min <= 15 && min <= |ks| && 1 <= life <= 72
                 && (forall i :: 0 <= i < |ks| ==> |ks[i]| > 0 && ks[i][0] == '+' && ks[i][1..] != tx.sender)
                 && forall i, j :: 0 <= i < j < |ks| ==> ks[i][1..] != ks[j][1..]
  {
    hide Row, CheckDelegates, ChangesFit, NoDuplicates;
    match tx.asset
    case Votes(vs) =>
      ChangesFitIff(s.conf, Row(s.conf, tx.From()).delegates, vs);
      if ChangesFit(s.conf, Row(s.conf, tx.From()).delegates, vs) {
        DistinctIs(s.conf, Row(s.conf, tx.From()).delegates, vs);
      }
    case Multisignature(ks, _, _) => GroupKeys(ks, tx.sender);
    case _ =>
  }

  lemma DistinctIs(conf: SideTable, votes: multiset<PublicKey>, vs: seq<string>)
    requires ChangesFit(conf, votes, vs)
    ensures DistinctKeys(vs)
  {
    hide ApplyDiff, Row;
  }

  lemma GroupKeys(ks: seq<string>, sender: PublicKey)
    ensures && (forall i :: 0 <= i < |ks| ==> Signed(ks[i]) && !IsMinus(ks[i]))
            && DistinctKeys(ks) && "+" + sender !in ks <==>
            && (forall i :: 0 <= i < |ks| ==> |ks[i]| > 0 && ks[i][0] == '+' && ks[i][1..] != sender)
            && forall i, j :: 0 <= i < j < |ks| ==> ks[i][1..] != ks[j][1..]
  {
    forall i | 0 <= i < |ks| && |ks[i]| > 0 && ks[i][0] == '+'
      ensures ks[i][1..] == sender <==> ks[i] == "+" + sender
    {
      assert ks[i] == "+" + ks[i][1..];
    }
  }

  // ---------- applying ----------

  /** The confirmed half is accepted from a sender who can pay and has the signatures it needs; a name has to be free
      still, and changes of votes have to fit the votes confirmed by then. */
  lemma ConfirmedIff(s: Accts, tx: Transaction)
    requires NoDuplicates(Row(s.conf, tx.From()).delegates)
    ensures var row := Row(s.conf, tx.From());
            CAllowed(s, tx, false) <==>
            && row.balance >= tx.amount + tx.fee && Countersigned(row, tx)
            && match tx.asset
               case Registration(u) => !row.isDelegate && NameFree(s.conf, u)
               case Votes(vs) => ChangesFit(s.conf, row.delegates, vs)
               case _ => true
  {
    hide Row, CheckDelegates, ChangesFit, NoDuplicates;
    ReadyIff(Row(s.conf, tx.From()), tx);
    if tx.asset.Votes? { ChangesFitIff(s.conf, Row(s.conf, tx.From()).delegates, tx.asset.votes); }
  }

  /** The unconfirmed half from a sender whose unconfirmed balance pays for it; what is asked besides is asked of the
      unconfirmed columns, except that voted delegates have to be confirmed ones and a second key in neither half. */
  lemma UnconfirmedIff(s: Accts, flags: set<Address>, tx: Transaction)
    requires NoDuplicates(Row(s.unconf, tx.From()).delegates)
    ensures var row := Row(s.unconf, tx.From());
            UAllowed(s, flags, tx, false) <==>
            && row.balance >= tx.amount + tx.fee
            && match tx.asset
               case Send(_) => true
               case SecondSignature(_) => !row.secondSignature && !Row(s.conf, tx.From()).secondSignature
               case Registration(u) => !row.isDelegate && NameFree(s.unconf, u)
               case Votes(vs) => ChangesFit(s.conf, row.delegates, vs)
               case Multisignature(_, _, _) => tx.From() !in flags
  {
    hide Row, CheckDelegates, ChangesFit, NoDuplicates;
    if tx.asset.Votes? { ChangesFitIff(s.conf, Row(s.unconf, tx.From()).delegates, tx.asset.votes); }
  }
}
