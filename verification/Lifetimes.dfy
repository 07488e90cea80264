/** How long cached answers live, in seconds. */
module Lifetimes {

  const LISTING_TTL: nat := 60
  const BAN_TTL: nat := 3600
}
