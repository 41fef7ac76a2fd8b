# ethers-octopus signing middleware, modelled in Dafny

The repository's `src/lib.rs` holds a middleware for Ethereum clients built on ethers-rs. It has two parts.

- `MultiSigner` is an ordered pool of signers. It records how many signers it holds in `indicies`.
- `OctopusMiddlewear` wraps an inner middleware and a `MultiSigner`.

Its `sign_transaction` always uses the pool's first signer. It checks the transaction's chain id against that signer's chain id:

- a declared id that differs is rejected with `DifferentChainID`, and the signer is not called;
- a missing id is filled in with the signer's id;
- an equal id is left alone.

It then has the signer sign the normalised transaction. A signer failure is wrapped as `SignerError`. On success it returns the signed encoding. Errors of the inner middleware convert to `MiddlewareError`.

The model is in two files:

- `wrappers.dfy` (module `Wrappers`): `Option` and `Result`.
- `octopus.dfy` (module `Octopus`): everything else.

How the source's entities are modelled:

- **Signer.** A class with a constant `chainId` below 2^64 (a `u64`). Two ghost sequences record every signing call: `requests` (what the signer was asked to sign) and `responses` (what it answered). Its answer is chosen arbitrarily, because signing is foreign and may be randomised.
- **Pool and middleware.** `MultiSigner` and `OctopusMiddleware` are datatypes. The source builds them as plain struct literals and never changes them.
- **`sign_transaction`.** The method `SignTransaction`. It copies the owned `mut tx` into a local variable and updates only that variable's chain id. Its `modifies` clause names the first signer alone.
- **Pure specification.** `Reconcile` is the chain-id gate. `Outcome` is the whole operation, given the signer's answer. `SignTransaction` is proved against both.
- **Repeated calls.** `ForwardedAll` concatenates the per-call `Forwarded` sequences that `SignTransaction` appends to the first signer's log. One lemma shows that one more call extends it by that call's `Forwarded`. Another shows it has one entry per compatible transaction, each carrying the signer's chain id.

The error enum declares `NonceMissing`, `GasPriceMissing`, `GasMissing` and `WrongSigner` (src/lib.rs:51-62), but no code path returns them. `sign_transaction` checks only the chain id and always uses `signers[0]` (src/lib.rs:78, src/lib.rs:90). The lemma `MissingFieldsAreNotRejected` states this.

## Model

| member | source | states |
|---|---|---|
| `Octopus.NewMultiSigner` | src/lib.rs:18-21 | the pool keeps the given signers, in order and unchanged, and `indicies` equals their number |
| `Octopus.NewOctopusMiddleware` | src/lib.rs:73-75 | the middleware stores the inner middleware and the pool exactly as given, including a pool whose `indicies` differs from its length |
| `Octopus.FromErr` | src/lib.rs:30-38 | an inner middleware error becomes an error whose inner cause is exactly that error, so it can be told apart from the middleware's own errors |
| `Octopus.InnerCauseOnlyFromErr` | src/lib.rs:35-37 | the converse of `FromErr`'s contract: any error that carries an inner cause is the conversion of that cause, so the conversion is onto the errors that carry an inner cause |
| `Octopus.Signer.SignTransaction` | src/lib.rs:90 | one call of the signer records exactly the transaction it was given and the answer it returned, keeping the request and response logs the same length |
| `Octopus.Reconcile` | src/lib.rs:78-88 | rejects with `DifferentChainID` exactly when a chain id is declared and differs from the signer's; otherwise the chain id is the signer's, an id already equal leaves the transaction unchanged, and no other field changes |
| `Octopus.Outcome` | src/lib.rs:77-93 | succeeds exactly when the chain ids are compatible and the signer succeeds; a mismatch gives `DifferentChainID`; a signer failure gives `SignerError` with the same cause; on success the encoded transaction carries the signer's chain id, the original other fields and the signer's signature; no other error kind is ever produced |
| `Octopus.MissingFieldsAreNotRejected` | src/lib.rs:77-93 | a corollary of `Outcome`'s contract: a compatible transaction is signed whatever its nonce, gas and gas price, and `NonceMissing`, `GasPriceMissing`, `GasMissing` and `WrongSigner` are never returned |
| `Octopus.Forwarded` | src/lib.rs:80-90 | one call passes at most one transaction to the signer, and does so exactly when the chain ids are compatible; that transaction carries the signer's chain id and the original other fields |
| `Octopus.SignTransaction` | src/lib.rs:77-93 | only the first signer is consulted and only it changes; it receives the normalised transaction exactly when the gate accepts, and otherwise is not called and the result is `DifferentChainID`; when it is called, the result is `Outcome` of the answer it gave; every other signer in the pool keeps its history |
| `Octopus.ForwardedAllSnoc` | src/lib.rs:77-93 | one more call extends `ForwardedAll`, the concatenation of the per-call `Forwarded` sequences, by exactly what `SignTransaction` appends to the first signer's log for that call |
| `Octopus.ForwardedAllProperties` | src/lib.rs:77-93 | `ForwardedAll` has one entry per transaction whose chain id is absent or equal to the signer's, and every entry carries that chain id |

## Left out

- Cryptographic signing (`Signer::sign_transaction` of ethers-signers) is foreign code. The signer's answer is arbitrary, so the model does not say that a signature verifies against the signer's key.
- RLP encoding (`TypedTransaction::rlp_signed`) is foreign code. The signed encoding is represented by the transaction and the signature it encodes, and its byte layout is not modelled.
- The three typed-transaction shapes (legacy, EIP-2930, EIP-1559) are merged into one record. Its only distinguished field is the chain id; the middleware neither reads nor writes any other field.
- `async`/`.await`: the one suspension point, the signer call, is an ordinary method call.
- An empty pool makes `signers[0]` panic in the source. `SignTransaction` therefore requires a non-empty pool instead of returning an error.
- The signer's and the inner middleware's error types are generic in the source (`S::Error`, `M::Error`). Here they are the opaque payloads `SignerFailure` and `InnerFailure`, each carrying a reason. The middleware only passes them on.
- `usize` bounds: `indicies` is a `nat`, because the length of a `Vec` always fits a `usize`.
- Pass-through to the inner client: the source stores `inner` but has no `Middleware` implementation that forwards to it, so only the error conversion is modelled.
- The `#[error(...)]` display strings, the `Clone`/`Debug` derives and the empty test module carry no behaviour.
