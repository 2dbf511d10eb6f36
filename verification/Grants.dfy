/** Transactions of the contracts, and what an admin's transactions leave granted. */
module Grants {
  import opened Common

  /** The host's view of one transaction: the ledger it closes in and who authorised it. */
  datatype Env = Env(ledger: U32, auths: set<Address>)

  /** The admin's own transaction makes this call. */
  ghost predicate Does<C>(tx: (Env, C), admin: Address, c: C) {
    tx.1 == c && admin in tx.0.auths
  }

  /** It was so at first or the admin made it so, and has not undone it since. */
  ghost predicate Stands<C>(txs: seq<(Env, C)>, admin: Address, atFirst: bool, on: C, off: Option<C>) {
    || (atFirst && forall k :: 0 <= k < |txs| ==> off.None? || !Does(txs[k], admin, off.value))
    || exists i :: && 0 <= i < |txs| && Does(txs[i], admin, on)
                   && forall k :: i < k < |txs| ==> off.None? || !Does(txs[k], admin, off.value)
  }

  lemma StandsOn<C>(txs: seq<(Env, C)>, tx: (Env, C), admin: Address, atFirst: bool, on: C, off: Option<C>)
    requires off != Some(on)
    ensures Stands(txs + [tx], admin, atFirst, on, off)
            <==> Does(tx, admin, on)
                 || (Stands(txs, admin, atFirst, on, off) && (off.None? || !Does(tx, admin, off.value)))
  {
    var all := txs + [tx];
    assert all[|txs|] == tx && forall k :: 0 <= k < |txs| ==> all[k] == txs[k];
    if Stands(txs, admin, atFirst, on, off) && (off.None? || !Does(tx, admin, off.value)) {
      if i :| 0 <= i < |txs| && Does(txs[i], admin, on)
              && forall k :: i < k < |txs| ==> off.None? || !Does(txs[k], admin, off.value) {
        assert Does(all[i], admin, on);
      }
    }
    if Stands(all, admin, atFirst, on, off) && !Does(tx, admin, on) {
      if i :| 0 <= i < |all| && Does(all[i], admin, on)
              && forall k :: i < k < |all| ==> off.None? || !Does(all[k], admin, off.value) {
        assert i < |txs| && Does(txs[i], admin, on);
        assert forall k :: i < k < |txs| ==> all[k] == txs[k];
      }
    }
  }
}
