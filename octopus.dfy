/** A signing middleware for Ethereum transactions: a pool of signers
    (`MultiSigner`) and the middleware (`OctopusMiddleware`) that reconciles a
    transaction's chain id with the first signer's, has that signer sign it and
    returns the signed encoding. */
module Octopus {
  import opened Wrappers

  /** Chain ids are unsigned 64-bit integers on both sides of the comparison. */
  const U64_LIMIT: nat := 0x1_0000_0000_0000_0000
  type ChainId = n: nat | n < U64_LIMIT

  type Address = seq<bv8>

  /** Every field of a transaction request other than its chain id. The
      middleware reads none of them and writes none of them. */
  datatype TxFields = TxFields(
    from: Option<Address>,
    to: Option<Address>,
    nonce: Option<nat>,
    gas: Option<nat>,
    gasPrice: Option<nat>,
    value: Option<nat>,
    data: seq<bv8>)

  datatype Transaction = Transaction(chainId: Option<ChainId>, fields: TxFields)

  /** An ECDSA signature as a signer returns it. */
  datatype Signature = Signature(r: nat, s: nat, v: nat)

  /** The signed encoding of a transaction. It is represented by the
      transaction and the signature it encodes; the byte layout of the
      encoding belongs to the transaction type and is not modelled. */
  datatype SignedTransaction = RlpSigned(tx: Transaction, signature: Signature)

  /** Why a signer failed (a missing key, a device error, ...). */
  datatype SignerFailure = SignerFailure(reason: string)

  /** Why the inner middleware failed. */
  datatype InnerFailure = InnerFailure(reason: string)

  /** The errors of the middleware. */
  datatype OctopusMiddlewareError =
    | SignerError(signerCause: SignerFailure)
    | MiddlewareError(middlewareCause: InnerFailure)
    | NonceMissing
    | GasPriceMissing
    | GasMissing
    | WrongSigner
    | DifferentChainID

  /** The cause carried by an error that came from the inner middleware. */
  function InnerCause(e: OctopusMiddlewareError): Option<InnerFailure> {
    match e
    case MiddlewareError(cause) => Some(cause)
    case _ => None
  }

  /** Conversion of an inner middleware error: the cause is kept and can be
      recovered, so the error is distinguishable from the middleware's own. */
  function FromErr(src: InnerFailure): (e: OctopusMiddlewareError)
    ensures InnerCause(e) == Some(src)
  {
    MiddlewareError(src)
  }

  /** The converse of `FromErr`'s contract: every error that carries an inner
      cause is the conversion of that cause, so the conversion is onto the
      errors with an inner cause. */
  lemma InnerCauseOnlyFromErr(e: OctopusMiddlewareError, src: InnerFailure)
    requires InnerCause(e) == Some(src)
    ensures e == FromErr(src)
  {
  }

  /** A signer holding one key, authorised for one chain. The ghost sequences
      record every call of `SignTransaction`: what it was asked to sign and
      what it answered. */
  class Signer {
    const chainId: ChainId
    ghost var requests: seq<Transaction>
    ghost var responses: seq<Result<Signature, SignerFailure>>

    ghost predicate Valid()
      reads this
    {
      |requests| == |responses|
    }

    constructor (chainId: ChainId)
      ensures this.chainId == chainId
      ensures requests == [] && responses == []
      ensures Valid()
    {
      this.chainId := chainId;
      requests := [];
      responses := [];
    }

    /** Signing is done by key material outside this model and may fail or be
        randomised: any answer is possible, and it is recorded. */
    method SignTransaction(tx: Transaction) returns (r: Result<Signature, SignerFailure>)
      requires Valid()
      modifies this
      ensures Valid()
      ensures requests == old(requests) + [tx]
      ensures responses == old(responses) + [r]
    {
      r :| true;
      requests := requests + [tx];
      responses := responses + [r];
    }
  }

  /** The pool of signers and its recorded size. */
  datatype MultiSigner = MultiSigner(signers: seq<Signer>, indicies: nat) {
    predicate Valid() {
      indicies == |signers|
    }
  }

  function NewMultiSigner(signers: seq<Signer>): (m: MultiSigner)
    ensures m.Valid()
    ensures m.signers == signers
  {
    MultiSigner(signers, |signers|)
  }

  /** The middleware: an inner middleware of type `M`, which it only stores,
      and a pool of signers. */
  datatype OctopusMiddleware<M> = OctopusMiddleware(inner: M, multisigner: MultiSigner)

  function NewOctopusMiddleware<M>(inner: M, multisigner: MultiSigner): (mw: OctopusMiddleware<M>)
    ensures mw.inner == inner
    ensures mw.multisigner == multisigner
  {
    OctopusMiddleware(inner, multisigner)
  }

  /** Whether a transaction may be signed for chain `c`: it declares no chain
      id, or declares `c`. */
  predicate Compatible(c: ChainId, tx: Transaction) {
    tx.chainId.None? || tx.chainId.value == c
  }

  /** The chain-id gate: a transaction that declares another chain is
      rejected; one that declares none gets `c`; one that declares `c` is kept
      as it is. Nothing but the chain id ever changes. */
  function Reconcile(tx: Transaction, c: ChainId): (r: Result<Transaction, OctopusMiddlewareError>)
    ensures r.Failure? <==> tx.chainId.Some? && tx.chainId.value != c
    ensures r.Failure? ==> r.error == DifferentChainID
    ensures r.Success? ==> r.value.chainId == Some(c) && r.value.fields == tx.fields
    ensures r.Success? && tx.chainId.Some? ==> r.value == tx
  {
    match tx.chainId
    case Some(id) => if id != c then Failure(DifferentChainID) else Success(tx)
    case None => Success(tx.(chainId := Some(c)))
  }

  /** The result of signing `tx` with a signer for chain `c` that answers
      `response` when it is asked. */
  function Outcome(c: ChainId, tx: Transaction, response: Result<Signature, SignerFailure>)
    : (r: Result<SignedTransaction, OctopusMiddlewareError>)
    ensures r.Success? <==> Compatible(c, tx) && response.Success?
    ensures !Compatible(c, tx) ==> r == Failure(DifferentChainID)
    ensures Compatible(c, tx) && response.Failure? ==> r == Failure(SignerError(response.error))
    ensures r.Success? ==>
      && r.value.tx.chainId == Some(c)
      && r.value.tx.fields == tx.fields
      && r.value.signature == response.value
    ensures r.Failure? ==> r.error.DifferentChainID? || r.error.SignerError?
  {
    match Reconcile(tx, c)
    case Failure(e) => Failure(e)
    case Success(normalized) =>
      match response
      case Failure(cause) => Failure(SignerError(cause))
      case Success(signature) => Success(RlpSigned(normalized, signature))
  }

  /** A corollary of `Outcome`'s contract: no field other than the chain id is
      validated, so a transaction without a nonce, gas limit or gas price is
      signed like any other, and none of `NonceMissing`, `GasPriceMissing`,
      `GasMissing` or `WrongSigner` is ever returned. */
  lemma MissingFieldsAreNotRejected(c: ChainId, tx: Transaction, response: Result<Signature, SignerFailure>)
    requires Compatible(c, tx)
    ensures response.Success? ==> Outcome(c, tx, response).Success?
    ensures var r := Outcome(c, tx, response);
      r.Failure? ==> !r.error.NonceMissing? && !r.error.GasPriceMissing? && !r.error.GasMissing? && !r.error.WrongSigner?
  {
  }

  /** What the signer is asked to sign in one call for `tx`: the normalised
      transaction, or nothing when the gate rejects `tx`. */
  function Forwarded(c: ChainId, tx: Transaction): (f: seq<Transaction>)
    ensures |f| <= 1
    ensures |f| == 1 <==> Compatible(c, tx)
    ensures |f| == 1 ==> f[0].chainId == Some(c) && f[0].fields == tx.fields
  {
    match Reconcile(tx, c)
    case Success(normalized) => [normalized]
    case Failure(_) => []
  }

  /** Finalise and sign `tx` with the pool's first signer. Only that signer is
      consulted and only it changes; it is called exactly when the chain-id
      gate accepts `tx`, with the normalised transaction. */
  method SignTransaction<M>(mw: OctopusMiddleware<M>, tx: Transaction)
    returns (r: Result<SignedTransaction, OctopusMiddlewareError>)
    requires |mw.multisigner.signers| > 0
    requires mw.multisigner.signers[0].Valid()
    modifies mw.multisigner.signers[0]
    ensures mw.multisigner.signers[0].Valid()
    ensures var signer := mw.multisigner.signers[0];
      signer.requests == old(signer.requests) + Forwarded(signer.chainId, tx)
    ensures var signer := mw.multisigner.signers[0];
      !Compatible(signer.chainId, tx) ==>
        && r == Failure(DifferentChainID)
        && signer.responses == old(signer.responses)
    ensures var signer := mw.multisigner.signers[0];
      Compatible(signer.chainId, tx) ==>
        && |signer.responses| == |old(signer.responses)| + 1
        && signer.responses[..|old(signer.responses)|] == old(signer.responses)
        && r == Outcome(signer.chainId, tx, signer.responses[|old(signer.responses)|])
    ensures var signers := mw.multisigner.signers;
      forall i :: 0 < i < |signers| && signers[i] != signers[0] ==>
        signers[i].requests == old(signers[i].requests) && signers[i].responses == old(signers[i].responses)
  {
    var signer := mw.multisigner.signers[0];
    var chainId := signer.chainId;
    var normalized := tx;
    match normalized.chainId {
      case Some(id) =>
        if id != chainId {
          return Failure(DifferentChainID);
        }
      case None =>
        normalized := normalized.(chainId := Some(chainId));
    }
    var signature := signer.SignTransaction(normalized);
    if signature.Failure? {
      return Failure(SignerError(signature.error));
    }
    return Success(RlpSigned(normalized, signature.value));
  }

  /** The concatenation of the `Forwarded` sequences of the transactions in
      `txs`, in order: by the first ensures of `SignTransaction`, what the first
      signer's log gains over one call per transaction of `txs`. */
  function ForwardedAll(c: ChainId, txs: seq<Transaction>): seq<Transaction> {
    if txs == [] then [] else Forwarded(c, txs[0]) + ForwardedAll(c, txs[1..])
  }

  /** How many of `txs` pass the chain-id gate for `c`. */
  function CountCompatible(c: ChainId, txs: seq<Transaction>): nat {
    if txs == [] then 0
    else (if Compatible(c, txs[0]) then 1 else 0) + CountCompatible(c, txs[1..])
  }

  /** Extending a run by one call extends `ForwardedAll` by exactly what
      `SignTransaction`'s first ensures appends to the log for that call. */
  lemma {:induction false} ForwardedAllSnoc(c: ChainId, txs: seq<Transaction>, tx: Transaction)
    ensures ForwardedAll(c, txs + [tx]) == ForwardedAll(c, txs) + Forwarded(c, tx)
  {
    if txs == [] {
      assert txs + [tx] == [tx];
      assert ForwardedAll(c, [tx]) == Forwarded(c, tx) + ForwardedAll(c, []);
    } else {
      assert (txs + [tx])[1..] == txs[1..] + [tx];
      ForwardedAllSnoc(c, txs[1..], tx);
    }
  }

  /** `ForwardedAll` has one entry per transaction that passes the gate, and
      every entry carries the signer's chain id. */
  lemma {:induction false} ForwardedAllProperties(c: ChainId, txs: seq<Transaction>)
    ensures |ForwardedAll(c, txs)| == CountCompatible(c, txs)
    ensures forall i :: 0 <= i < |ForwardedAll(c, txs)| ==> ForwardedAll(c, txs)[i].chainId == Some(c)
  {
    if txs != [] {
      ForwardedAllProperties(c, txs[1..]);
      assert ForwardedAll(c, txs) == Forwarded(c, txs[0]) + ForwardedAll(c, txs[1..]);
    }
  }
}
