/** Identifiers and timestamps as the document store hands them out, and order-preserving subsequences. */
module Ids {

  /** A document identifier (a BSON ObjectId), in its string form: `str(oid)` is the identity here. */
  type ObjectId = string

  /** A point in time, in milliseconds since the Unix epoch. */
  type Timestamp = int

  /** `t` is obtained from `s` by deleting some elements, keeping the others in their order. */
  ghost predicate IsSubsequence<T>(t: seq<T>, s: seq<T>)
    decreases |s|
  {
    if t == [] then true
    else if s == [] then false
    else if t[0] == s[0] then IsSubsequence(t[1..], s[1..])
    else IsSubsequence(t, s[1..])
  }
}
