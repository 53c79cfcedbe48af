/** The values the converter works on: native (Antelope) blocks, EVM blocks, and the
    functions of other libraries it calls. */
module Types {

  datatype Option<+T> = None | Some(value: T)

  /** The exceptions the receiver and the handler can raise.  `Undefined` stands for reads the C++ code
      leaves undefined, such as `back()` of an empty list. */
  datatype Error =
    | NoForkBlock
    | UnableToRemoveTransactions
    | UnableToRemoveTransaction
    | UnableToSetUpperBound
    | ConfigMidBlock
    | BadAction
    | VersionTooLow
    | VersionTooHigh
    | WrongVariant
    | GasPricesDiffer
    | BaseFeeDiffers
    | DecodeFailed
    | NoReceipt
    | ZeroCreator
    | ParentNotBefore
    | ParentNoReceipt
    | MultipleConfigs
    | ConfigNotFirst
    | PushWithConfig
    | MixedTransaction
    | MixedBlock
    | Undefined

  /** A value, or the exception thrown instead. */
  datatype Result<+T> = Success(value: T) | Failure(error: Error) {
    predicate IsFailure() {
      Failure?
    }

    function PropagateFailure<U>(): Result<U>
      requires Failure?
    {
      Failure(error)
    }

    function Extract(): T
      requires Success?
    {
      value
    }
  }

  type Hash = nat
  type Bytes = seq<nat>

  /** A decoded EVM transaction. */
  datatype Tx = Tx(payload: Bytes)

  datatype GasPrices = GasPrices(overhead: nat, storage: nat)

  /** Name of a contract action. */
  datatype ActionName = PushTx | EvmTx | ConfigChange | OtherName(n: nat)

  datatype Action = Action(name: ActionName, data: Bytes)

  /** A deserialized action: the alternatives of the `evmtx_type` variant. */
  datatype ActionTx =
    | V1(version: nat, rlpx: Bytes, baseFee: nat)
    | V3(version: nat, rlpx: Bytes, prices: GasPrices)

  datatype NativeTrx = NativeTrx(actions: seq<Action>)

  /** A block of the Antelope chain; `timestamp` is in microseconds. */
  datatype NativeBlock = NativeBlock(
    id: Hash,
    prev: Hash,
    blockNum: nat,
    timestamp: nat,
    lib: nat,
    newConfig: Option<Action>,
    transactions: seq<NativeTrx>)

  /** `version` is the header's nonce read as a number; `rest` gathers the fields that
      nobody changes after the header is prepared. */
  datatype Header = Header(
    number: nat,
    parentHash: Hash,
    timestamp: nat,
    version: nat,
    baseFee: Option<nat>,
    prevRandao: Hash,
    txRoot: Hash,
    rest: nat)

  datatype Block = Block(
    header: Header,
    transactions: seq<Tx>,
    irreversible: bool,
    cpi: Option<Hash>,
    gasPrices: Option<GasPrices>)

  /** The functions the handler calls in code that is not part of this model. */
  datatype Env = Env(
    genesis: nat,                                        // seconds
    genesisVersion: nat,                                 // `_version` of the chain config, or 0
    idNum: Hash -> nat,                                  // block number carried by a native id
    headerHash: Header -> Hash,
    rootHash: seq<Tx> -> Hash,
    emptyRoot: Hash,
    blockTime: nat -> nat,                               // header timestamp of a block number
    headerFee: (nat, Option<nat>) -> Option<nat>,        // base fee of a fresh header
    headerRest: (nat, nat, Option<nat>) -> nat,
    feeOf: GasPrices -> nat,                             // calculate_base_fee_per_gas
    readPush: Bytes -> Option<Bytes>,                    // rlpx of a pushtx action
    readEvm: Bytes -> Option<ActionTx>,
    readConfig: Bytes -> Option<Hash>,                   // hash of the gas parameters
    decode: Bytes -> Option<Tx>,
    encode: Tx -> Bytes,
    keccak: Bytes -> Hash)
}
