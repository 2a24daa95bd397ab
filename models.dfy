/** The domain entity of internal/domain/models/stock.go. */
module Models {

  /** One analyst rating-change event. `time` is the event timestamp as an
      integer instant (Go's time.Time compared by instant). */
  datatype Stock = Stock(
    ticker: string,
    company: string,
    targetFrom: string,
    targetTo: string,
    action: string,
    brokerage: string,
    ratingFrom: string,
    ratingTo: string,
    time: int)
}
