/** What the stages of the pipeline hand to each other. */
module Messages {
  import opened Pricing

  /** How a context ends. */
  datatype CtxError = Canceled | DeadlineExceeded

  /** A new block (internal/chain/subscriber.go). */
  datatype BlockEvent = BlockEvent(number: Uint64, timestamp: int, baseFee: Option<nat>)

  /** One venue's answer for one block (internal/pipeline/dispatcher.go). */
  datatype VenueResult = VenueResult(venue: string, block: BlockEvent, quotes: IndexableQuotes, err: Option<Error>)

  /** A prospective trade (internal/pathfinder/pathfinder.go). */
  datatype CandidatePath = CandidatePath(
    block: BlockEvent,
    size: real,
    buyVenue: string,
    sellVenue: string,
    buyPrice: real,
    sellPrice: real,
    gas: Uint64)
}
