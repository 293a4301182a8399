/** Decoded ITCH messages (cpp/include/itchlab/itch/messages.hpp) as the replay consumes them. */
module Messages {
  import opened Types

  type Stock = s: Bytes | |s| == 8 witness [0, 0, 0, 0, 0, 0, 0, 0]
  type Reason = s: Bytes | |s| == 4 witness [0, 0, 0, 0]

  datatype Message =
    | Ignored(locate: U16, timestamp: U64, source: U8)
    | System(locate: U16, timestamp: U64, code: U8)
    | Directory(locate: U16, timestamp: U64, stock: Stock, marketCategory: U8, financialStatus: U8,
                roundLotSize: U32, roundLotsOnly: U8)
    | Action(locate: U16, timestamp: U64, stock: Stock, state: U8, reason: Reason)
    | AddOrder(locate: U16, timestamp: U64, reference: U64, side: Side, shares: U64, stock: Stock, price: U32)
    | AddAttributed(locate: U16, timestamp: U64, reference: U64, side: Side, shares: U64, stock: Stock, price: U32,
                    attribution: Attribution)
    | Executed(locate: U16, timestamp: U64, reference: U64, shares: U64, matchNumber: U64)
    | ExecutedPrice(locate: U16, timestamp: U64, reference: U64, shares: U64, matchNumber: U64, price: U32)
    | CancelOrder(locate: U16, timestamp: U64, reference: U64, shares: U64)
    | DeleteOrder(locate: U16, timestamp: U64, reference: U64)
    | ReplaceOrder(locate: U16, timestamp: U64, reference: U64, replacement: U64, shares: U64, price: U32)
    | Trade(locate: U16, timestamp: U64, reference: U64, side: Side, shares: U64, stock: Stock, price: U32,
            matchNumber: U64)
    | Cross(locate: U16, timestamp: U64, shares: U64, stock: Stock, price: U32, matchNumber: U64, crossType: U8)
    | Broken(locate: U16, timestamp: U64, matchNumber: U64)

  /** The first payload byte, which chose the message's type in the decoder. */
  function SourceType(m: Message): U8 {
    match m
    case Ignored(_, _, source) => source
    case System(_, _, _) => 'S' as int
    case Directory(_, _, _, _, _, _, _) => 'R' as int
    case Action(_, _, _, _, _) => 'H' as int
    case AddOrder(_, _, _, _, _, _, _) => 'A' as int
    case AddAttributed(_, _, _, _, _, _, _, _) => 'F' as int
    case Executed(_, _, _, _, _) => 'E' as int
    case ExecutedPrice(_, _, _, _, _, _) => 'C' as int
    case CancelOrder(_, _, _, _) => 'X' as int
    case DeleteOrder(_, _, _) => 'D' as int
    case ReplaceOrder(_, _, _, _, _, _) => 'U' as int
    case Trade(_, _, _, _, _, _, _, _) => 'P' as int
    case Cross(_, _, _, _, _, _, _) => 'Q' as int
    case Broken(_, _, _) => 'B' as int
  }

  const PADDING: U8 := 0x20

  /** ITCH alpha fields are right-padded with spaces. */
  function Trimmed(field: Bytes): (text: Bytes)
    ensures |text| <= |field| && text == field[..|text|]
    ensures text != [] ==> text[|text| - 1] != PADDING
    ensures forall i :: |text| <= i < |field| ==> field[i] == PADDING
  {
    if field != [] && field[|field| - 1] == PADDING then Trimmed(field[..|field| - 1]) else field
  }

  /** The symbol that a message names inside its payload, if its type carries one. */
  function EmbeddedSymbol(m: Message): Option<Bytes> {
    match m
    case Action(_, _, stock, _, _) => Some(Trimmed(stock))
    case AddOrder(_, _, _, _, _, stock, _) => Some(Trimmed(stock))
    case AddAttributed(_, _, _, _, _, stock, _, _) => Some(Trimmed(stock))
    case Trade(_, _, _, _, _, stock, _, _) => Some(Trimmed(stock))
    case Cross(_, _, _, stock, _, _, _) => Some(Trimmed(stock))
    case _ => None
  }
}
