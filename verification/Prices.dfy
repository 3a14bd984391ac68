/** What a seller asks for a resource. */
module Prices {
  datatype Price = Free | Paid(minor: int, currency: string)
}
