/** The transaction parser's return codes. */
module ParserErrors {
  datatype ParserError =
    | Ok
    | NoData
    | DisplayIdxOutOfRange
    | DisplayPageOutOfRange
    | UnexpectedType
    | UnexpectedBufferEnd
    | UnexpectedValue
    | UnexpectedNumberItems
    | UnexpectedCharacters
    | UnexpectedChain
    | QueryNoResults
    | TransactionTooBig
    | JsonZeroTokens
    | JsonTooManyTokens
    | JsonIncompleteJson
    | JsonContainsWhitespace
    | JsonIsNotSorted
    | JsonMissingChainId
    | JsonMissingSequence
    | JsonMissingFee
    | JsonMissingMsgs
    | JsonMissingAccountNumber
    | JsonMissingMemo
    | DuplicatedField
    | ContextUnexpectedSize
}
