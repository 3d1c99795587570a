/** Small datatypes shared by every module. */
module Base {

  datatype Option<+T> = None | Some(value: T) {
    function GetOr(default: T): T {
      match this
      case Some(v) => v
      case None => default
    }
  }

  function Min(a: int, b: int): int {
    if a <= b then a else b
  }

  function Max(a: int, b: int): int {
    if a >= b then a else b
  }

  lemma SubsetSmaller<T>(a: set<T>, b: set<T>)
    requires a <= b
    ensures |a| <= |b|
  {
    assert b == a + (b - a);
  }
}

/** The Liquid network as the service sees it: transactions that spend outpoints and pay scripts.
    A txid is modelled by the transaction it names, so two transactions never share a txid. */
module Chain {

  type SwapId = string

  /** A wallet-supplied address, or the one a descriptor derives at an index. Derivation is
      injective: two (descriptor, index) pairs never give one address. */
  datatype Address = Wallet(text: string) | Derived(descriptor: string, index: nat)

  /** An output script; `FeeScript` is the empty script of a Liquid fee output. */
  datatype Script = PayTo(address: Address) | FeeScript

  /** Each swap has lockup outpoints of its own; every other outpoint is `Elsewhere`. */
  datatype Outpoint = Lockup(swap: SwapId, n: nat) | Elsewhere(n: nat)

  datatype Tx = Tx(nonce: nat, inputs: seq<Outpoint>, outputs: seq<Script>)

  ghost predicate NoDoubleSpend(network: set<Tx>) {
    forall a, b, o :: a in network && b in network && o in a.inputs && o in b.inputs ==> a == b
  }

  /** The spender pays one of the claim transaction's non-empty output scripts. */
  predicate MatchesClaimDestination(spending: Tx, claim: Tx) {
    exists i, j :: 0 <= i < |claim.outputs| && 0 <= j < |spending.outputs|
      && claim.outputs[i] != FeeScript && spending.outputs[j] == claim.outputs[i]
  }
}
