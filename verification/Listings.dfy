/** What a marketplace holds of a resource. */
module Listings {
  datatype ListingState = Draft | Live
}
