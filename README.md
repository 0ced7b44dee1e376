# Native mint event processor, modelled in Dafny

Besu's `NativeMintEventProcessor` runs once per transaction, after EVM execution and before the
world state is committed. It scans the transaction's logs. A log counts only if the configured
mint contract emitted it and its first topic is the `MintRequested(address,uint256)` event
signature. Each such log is checked for shape (two topics, 32 data bytes) and decoded. The
recipient is the low 20 bytes of the second topic. The amount is the big-endian unsigned 256-bit
value of the data. A zero amount or the zero-address recipient is rejected. Otherwise the
recipient's account is got or created, and its native balance is incremented with an overflow
check. A failure in one log never stops the others.

The project has three files:

- `evm_types.dfy` (module `EvmTypes`) defines bytes, 20-byte addresses and 32-byte words. It also
  defines Wei amounts bounded by 2^256 - 1 and the log datatype. It holds the big-endian reading
  of the amount with its ABI encoding and the recipient reading of a topic with its left-padded
  encoding, each proved against the other in both directions.
- `mint_spec.dfy` (module `MintSpec`) holds the per-log chain as pure functions:
  - `StepOutcome` runs the filters, then `MintOutcome`, which uses `DecodeMintRequest` and the
    overflow test.
  - `Credit` does the get-or-create and checked increment.
  - `Step` is the effect of one log, and `ApplyLogs` folds `Step` over a list in order.
  - Lemmas state what the processor guarantees. Filtered and rejected logs change nothing. A
    well-formed log credits exactly its amount to its recipient. An overflowing log changes
    nothing. A later log never undoes an earlier credit.
- `native_mint_event_processor.dfy` (module `NativeMint`) has the imperative layer. The class
  `NativeMintEventProcessor` holds the configured address. Its `ProcessLogs` loop,
  `ProcessMintRequest` and `ExecuteMint` mutate a `WorldUpdater` object in place. Each method is
  proved equal to the functions of `MintSpec`.

A Java exception that the processor catches per log becomes the outcome `Failed`, which leaves the
balances unchanged. The warnings it logs become the reasons carried by `Rejected`.

## Model

| member | source | states |
|---|---|---|
| `EvmTypes.BigEndian` | ethereum/core/src/main/java/org/hyperledger/besu/ethereum/mainnet/NativeMintEventProcessor.java:136 | the big-endian value of n bytes is below 256^n |
| `EvmTypes.Pow256Word` | ethereum/core/src/main/java/org/hyperledger/besu/ethereum/mainnet/NativeMintEventProcessor.java:50 | a 32-byte word holds exactly the values up to 2^256 - 1, the Wei range |
| `EvmTypes.BigEndianOfToBigEndian` | ethereum/core/src/main/java/org/hyperledger/besu/ethereum/mainnet/NativeMintEventProcessor.java:136 | decoding the big-endian encoding of a value that fits the width gives the value back |
| `EvmTypes.ToBigEndianOfBigEndian` | ethereum/core/src/main/java/org/hyperledger/besu/ethereum/mainnet/NativeMintEventProcessor.java:136 | re-encoding a decoded byte string at its own width gives the string back |
| `EvmTypes.BigEndianZeroIff` | ethereum/core/src/main/java/org/hyperledger/besu/ethereum/mainnet/NativeMintEventProcessor.java:139 | a byte string reads as zero if and only if every byte is zero |
| `EvmTypes.WordValue` | ethereum/core/src/main/java/org/hyperledger/besu/ethereum/mainnet/NativeMintEventProcessor.java:136 | the amount read from 32 data bytes is a Wei value; it is zero exactly when all bytes are zero, and its 32-byte encoding is the data |
| `EvmTypes.EncodeWei` | ethereum/core/src/main/java/org/hyperledger/besu/ethereum/mainnet/NativeMintEventProcessor.java:136 | reading back the ABI word encoding of any Wei amount gives that amount |
| `EvmTypes.PadTopicAddress` | ethereum/core/src/main/java/org/hyperledger/besu/ethereum/mainnet/NativeMintEventProcessor.java:123 | a topic whose 12 high bytes are zero is exactly the padding of the recipient read from it, the other direction of the address round trip |
| `EvmTypes.PadAddress` | ethereum/core/src/main/java/org/hyperledger/besu/ethereum/mainnet/NativeMintEventProcessor.java:123 | an address left-padded with 12 zero bytes reads back as that address |
| `EvmTypes.TopicAddressIgnoresPadding` | ethereum/core/src/main/java/org/hyperledger/besu/ethereum/mainnet/NativeMintEventProcessor.java:123 | two topics that agree on their low 20 bytes name the same recipient; the 12 high bytes are not checked |
| `MintSpec.EmitMintRequested` | ethereum/core/src/main/java/org/hyperledger/besu/ethereum/mainnet/NativeMintEventProcessor.java:44-50 | the log the contract emits for a request comes from the contract, passes both filters, has 2 topics and 32 data bytes, its second topic holds the recipient and its data encodes the amount |
| `MintSpec.EmittedMintDecodes` | ethereum/core/src/main/java/org/hyperledger/besu/ethereum/mainnet/NativeMintEventProcessor.java:121-147 | the emitted log of a request with a nonzero amount and a nonzero recipient decodes to exactly that request |
| `MintSpec.DecodeMintRequest` | ethereum/core/src/main/java/org/hyperledger/besu/ethereum/mainnet/NativeMintEventProcessor.java:112-147 | a decoded request comes only from a log with 2 topics and 32 data bytes whose second topic holds the recipient and whose data encodes the amount, and both values are nonzero; a wrong topic count is rejected first, with expected 2 and the actual count |
| `MintSpec.MintOutcome` | ethereum/core/src/main/java/org/hyperledger/besu/ethereum/mainnet/NativeMintEventProcessor.java:106-166 | a MintRequested log is rejected with exactly the reason the checks give, or, if and only if it decodes, applied or failed with the decoded request: applied only if the new balance fits in 256 bits, failed only if it would overflow, and then only for an account that already exists |
| `MintSpec.StepOutcome` | ethereum/core/src/main/java/org/hyperledger/besu/ethereum/mainnet/NativeMintEventProcessor.java:80-96 | a log is skipped if and only if it fails the emitter or signature filter; an applied or failed log is exactly the well-formed encoding of its request; applied means no overflow, failed means overflow |
| `MintSpec.Credit` | ethereum/core/src/main/java/org/hyperledger/besu/ethereum/mainnet/NativeMintEventProcessor.java:179-185 | after the credit the recipient's account exists with its old balance (0 if new) plus the amount; no other account appears, disappears or changes |
| `MintSpec.Effect` | ethereum/core/src/main/java/org/hyperledger/besu/ethereum/mainnet/NativeMintEventProcessor.java:91-96 | only an applied mint changes the balances; a skipped, rejected or failed (caught) log leaves them exactly as they were; an applied one adds the recipient's account, sets it to the old balance plus the amount and leaves every other account's balance unchanged; no balance ever decreases |
| `MintSpec.Step` | ethereum/core/src/main/java/org/hyperledger/besu/ethereum/mainnet/NativeMintEventProcessor.java:80-96 | one log never removes an account or lowers a balance, and any account it creates or changes is the recipient decoded from that log, which passed both filters and every check |
| `MintSpec.ApplyLogs` | ethereum/core/src/main/java/org/hyperledger/besu/ethereum/mainnet/NativeMintEventProcessor.java:75-97 | an empty list leaves the balances unchanged; a scan never removes an account or lowers a balance |
| `MintSpec.ForeignEmitterNoChange` | ethereum/core/src/main/java/org/hyperledger/besu/ethereum/mainnet/NativeMintEventProcessor.java:81-83 | a log from another emitter is skipped and leaves the balances unchanged, whatever its topics and data |
| `MintSpec.NotMintEventNoChange` | ethereum/core/src/main/java/org/hyperledger/besu/ethereum/mainnet/NativeMintEventProcessor.java:86-89 | a log from the contract with no topics, or whose first topic is not the signature, is skipped and changes nothing |
| `MintSpec.MalformedShapeNoChange` | ethereum/core/src/main/java/org/hyperledger/besu/ethereum/mainnet/NativeMintEventProcessor.java:112-134 | a matching log with a topic count other than 2 or data other than 32 bytes is rejected with the expected and actual sizes (topic count first) and changes nothing |
| `MintSpec.InvalidValueNoChange` | ethereum/core/src/main/java/org/hyperledger/besu/ethereum/mainnet/NativeMintEventProcessor.java:139-147 | a shape-valid log with all-zero data or a zero recipient is rejected (zero amount checked first) and changes nothing |
| `MintSpec.WellFormedMintCredits` | ethereum/core/src/main/java/org/hyperledger/besu/ethereum/mainnet/NativeMintEventProcessor.java:123-185 | a well-formed log is applied as exactly its credit when the sum fits; when it would exceed 2^256 - 1 it fails and leaves the balances unchanged instead of wrapping |
| `MintSpec.ApplyLogsAppend` | ethereum/core/src/main/java/org/hyperledger/besu/ethereum/mainnet/NativeMintEventProcessor.java:79-97 | processing xs + ys equals processing ys on the result of xs, so a later log never undoes an earlier increment |
| `MintSpec.NoOpLogIrrelevant` | ethereum/core/src/main/java/org/hyperledger/besu/ethereum/mainnet/NativeMintEventProcessor.java:79-97 | a log that leaves the balances it meets unchanged can be removed from the list without changing the final balances |
| `MintSpec.InertLogIrrelevant` | ethereum/core/src/main/java/org/hyperledger/besu/ethereum/mainnet/NativeMintEventProcessor.java:79-97 | a filtered-out or rejected log has no effect at any position, so a malformed log never blocks the well-formed ones before or after it |
| `MintSpec.OverflowIsolated` | ethereum/core/src/main/java/org/hyperledger/besu/ethereum/mainnet/NativeMintEventProcessor.java:163-165 | a log whose increment overflows is dropped; earlier increments are kept and later logs are processed as if it were absent |
| `MintSpec.ApplyLogsOnlyCredits` | ethereum/core/src/main/java/org/hyperledger/besu/ethereum/mainnet/NativeMintEventProcessor.java:79-97 | an account named by no well-formed MintRequested log of the list keeps its presence or absence and its balance through the scan |
| `MintSpec.DuplicateLogCreditsTwice` | ethereum/core/src/main/java/org/hyperledger/besu/ethereum/mainnet/NativeMintEventProcessor.java:79-97 | the same well-formed log twice credits the recipient twice the amount |
| `MintSpec.CreditsCommute` | ethereum/core/src/main/java/org/hyperledger/besu/ethereum/mainnet/NativeMintEventProcessor.java:179-185 | two credits that fit in either order fit in the other order too, and give the same balances |
| `MintSpec.MintsCommute` | ethereum/core/src/main/java/org/hyperledger/besu/ethereum/mainnet/NativeMintEventProcessor.java:79-97 | two well-formed logs give the same final balances in either order when neither order overflows |
| `NativeMint.WorldUpdater.GetOrCreate` | ethereum/core/src/main/java/org/hyperledger/besu/ethereum/mainnet/NativeMintEventProcessor.java:179 | the account exists afterwards; a new one starts at balance zero and existing ones are untouched |
| `NativeMint.WorldUpdater.IncrementBalance` | ethereum/core/src/main/java/org/hyperledger/besu/ethereum/mainnet/NativeMintEventProcessor.java:184-185 | the balance grows by the amount if and only if the sum is at most 2^256 - 1; otherwise it reports failure and nothing changes |
| `NativeMint.NativeMintEventProcessor.constructor` | ethereum/core/src/main/java/org/hyperledger/besu/ethereum/mainnet/NativeMintEventProcessor.java:59-62 | the processor keeps the configured mint-contract address, with no validation |
| `NativeMint.NativeMintEventProcessor.ProcessLogs` | ethereum/core/src/main/java/org/hyperledger/besu/ethereum/mainnet/NativeMintEventProcessor.java:73-98 | an absent or empty list leaves every balance unchanged; otherwise the final balances are the per-log step folded over the list in order |
| `NativeMint.NativeMintEventProcessor.ProcessMintRequest` | ethereum/core/src/main/java/org/hyperledger/besu/ethereum/mainnet/NativeMintEventProcessor.java:106-166 | the outcome is that of the shape check, decode, value checks and checked increment; the world changes only by the credit of an applied request |
| `NativeMint.NativeMintEventProcessor.ExecuteMint` | ethereum/core/src/main/java/org/hyperledger/besu/ethereum/mainnet/NativeMintEventProcessor.java:175-193 | the mint succeeds if and only if the recipient's balance (0 if absent) plus the amount fits; success applies exactly the credit, and failure leaves the world unchanged, including no new account |

## Left out

- The keccak-256 hash of the event declaration is not computed. `MintRequestedEventSignature` is a fixed word with no stated value, because the hash primitive is a foreign library. Every property holds whatever its value is.
- Logging through SLF4J (the info, warn, trace and error messages) is left out. The outcome datatype records which warning class (`Rejected` with its reason) or error class (`Failed`) a log reached.
- `WorldUpdater`, `MutableAccount`, `Address.wrap`, `Wei.wrap` and `Bytes.slice` are internal library code. They become a balance map held by one `WorldUpdater` object, sequence slicing and a big-endian conversion to a bounded natural number. Account objects, their aliasing, and every account field other than the native balance are not modelled.
- The catch at lines 93-96 has no counterpart. Between that catch and the inner one, `processMintRequest` only reads the topic count and logs the warning at lines 113-117, and neither can fail in the model. Inside the inner try (lines 121-165) nothing fails in the model except the overflow: the second topic is read only after the topic count is checked, and the slices have fixed sizes. The overflow is caught at lines 163-165 and becomes `Failed`.
- A `null` element inside the log list is not modelled: a log list holds log values. In the Java, `log.getLogger()` at line 81 would throw a `NullPointerException` outside both try blocks. That exception escapes `processLogs`, the rest of the list is not processed, and the increments already made are kept. A `null` list is modelled as `None`.
- When the processor runs in the transaction pipeline, and how the world state is committed afterwards, are outside this component.
