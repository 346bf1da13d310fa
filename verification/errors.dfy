/** The error values the core can return. */
module Errors {

  datatype Error =
    // The six domain errors declared together in the entities package.
    | InsufficientStock
    | ProductNotFound
    | CategoryNotFound
    | InvalidSKU
    | InvalidQuantity
    | DuplicateSKU
      // Any error reported by a store (connection, constraint, bad LIMIT/OFFSET),
      // labelled by the operation that failed; it is passed on unchanged.
    | StorageFailure(operation: string)
      // The two errors the SKU format check builds on the spot.
    | SkuEmpty
    | SkuFormat
      // The error naming the blank required fields.
    | MissingFields(fields: set<string>)
}
