/**
 The few pieces of the host framework that every record hook relies on:
 optional field values, Python/JavaScript truthiness, and the outcome of a
 save-time hook (the record as the hook leaves it, whether an advisory
 message was shown, or the blocking error it raised).
 */
module Frappe {

  /** An optional field value or lookup result. */
  datatype Option<+T> = None | Some(value: T)

  /** Truthiness of an optional number: an absent value and 0 are both falsy. */
  predicate Truthy(x: Option<real>) {
    x.Some? && x.value != 0.0
  }

  /** Truthiness of an optional integer field. */
  predicate TruthyInt(x: Option<int>) {
    x.Some? && x.value != 0
  }

  /** A text field is set when it is non-empty; None and "" are both falsy. */
  predicate Filled(s: string) {
    |s| > 0
  }

  /** JavaScript's `x || 0` on an optional number. */
  function OrZero(x: Option<real>): (r: real)
    ensures Truthy(x) ==> r == x.value
    ensures !Truthy(x) ==> r == 0.0
  {
    if x.Some? then x.value else 0.0
  }

  /**
   The result of running a save-time hook: either the record is saved
   (possibly changed, possibly with a non-blocking advisory message), or
   the hook raised a blocking error and the save is aborted.
   */
  datatype Outcome<+D, +E> = Saved(doc: D, advised: bool) | Thrown(error: E)

  /**
   Defaulting of a timestamp-like field: an empty field takes the current
   clock value, a set field is kept.
   */
  function DefaultIfEmpty(current: string, now: string): (r: string)
    ensures Filled(current) ==> r == current
    ensures !Filled(current) ==> r == now
    ensures Filled(now) ==> Filled(r)
  {
    if Filled(current) then current else now
  }

  /** Defaulting twice with any clock value is the same as defaulting once. */
  lemma DefaultIfEmptyIdempotent(current: string, now: string, later: string)
    requires Filled(now)
    ensures DefaultIfEmpty(DefaultIfEmpty(current, now), later) == DefaultIfEmpty(current, now)
  {
  }

  /**
   Auto-population of a denormalised display name: when the reference is set
   and the name is empty, the name of the referenced master (looked up by the
   reference) is copied, provided the lookup found a non-empty name. A set
   name is never overwritten, and a failed or empty lookup leaves it as is.
   */
  function Populate(name: string, reference: string, lookup: string -> Option<string>): (r: string)
    ensures Filled(name) ==> r == name
    ensures !Filled(reference) ==> r == name
    ensures r != name ==> lookup(reference) == Some(r) && Filled(r)
    ensures Filled(reference) && !Filled(name) && lookup(reference).Some? && Filled(lookup(reference).value)
            ==> r == lookup(reference).value
  {
    if Filled(reference) && !Filled(name) then
      var found := lookup(reference);
      if found.Some? && Filled(found.value) then found.value else name
    else
      name
  }

  /** A second save with the same master data changes nothing further. */
  lemma PopulateIdempotent(name: string, reference: string, lookup: string -> Option<string>)
    ensures Populate(Populate(name, reference, lookup), reference, lookup) == Populate(name, reference, lookup)
  {
  }

  /** The lookup is consulted only when the reference is set and the name empty. */
  lemma PopulateIgnoresLookup(name: string, reference: string, lookup1: string -> Option<string>, lookup2: string -> Option<string>)
    requires Filled(name) || !Filled(reference)
    ensures Populate(name, reference, lookup1) == Populate(name, reference, lookup2)
  {
  }
}
