/** Identifiers. */
module Ids {
  /** A UUID in its 36-character text form. */
  type Uuid = s: string | |s| == 36 && ':' !in s witness "00000000-0000-0000-0000-000000000000"
}
