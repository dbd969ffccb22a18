/**
 * The negotiation payload ("Offer"): a session description and the
 * candidates gathered for it. The remote side's payload arrives as text; it
 * is parsed and then checked with three assertions before any of it is used.
 */
module Payload {
  import opened Wrappers
  import opened JsValues

  /** `{ description, iceCandidates }`, as the local side publishes it. */
  datatype Offer = Offer(description: Value, iceCandidates: seq<Value>)

  /**
   * Why a remote payload is refused: `JSON.parse` threw, or one of the
   * assertions threw (all three throw the same message-less error).
   */
  datatype DecodeError = SyntaxError | AssertionError

  /** A payload that passed the checks: the parsed value and the two parts read from it. */
  datatype Remote = Remote(payload: Value, description: Value, iceCandidates: seq<Value>)

  /**
   * The shape the checks admit, stated on the structure of the value rather
   * than through truthiness and `typeof`: an object whose "description" is an
   * object or an array, and whose "iceCandidates" is an array.
   */
  predicate WellFormed(v: Value)
  {
    && v.Object?
    && "description" in v.fields
    && (v.fields["description"].Object? || v.fields["description"].Array?)
    && "iceCandidates" in v.fields
    && v.fields["iceCandidates"].Array?
  }

  /**
   * The parse and the three assertions of the handler, in order: `assert(v)`
   * throws exactly when its argument is falsy.
   */
  function Decode(parsed: Option<Value>): (r: Result<Remote, DecodeError>)
    ensures r.Failure? && r.error == SyntaxError <==> parsed.None?
    ensures r.Success? ==> parsed == Some(r.value.payload)
    ensures r.Success? ==> r.value.description == Get(r.value.payload, "description")
    ensures r.Success? ==> Get(r.value.payload, "iceCandidates") == Array(r.value.iceCandidates)
  {
    match parsed
    case None => Failure(SyntaxError)
    case Some(v) =>
      if !Truthy(v) then Failure(AssertionError)
      else
        var description := Get(v, "description");
        if !Truthy(And(description, Bool(TypeOf(description) == "object"))) then Failure(AssertionError)
        else
          var candidates := Get(v, "iceCandidates");
          if !Truthy(Bool(IsArray(candidates))) then Failure(AssertionError)
          else Success(Remote(v, description, candidates.items))
  }

  /**
   * A payload is accepted exactly when it parses and is well formed: a
   * truthy value that is not an object has no "description", and a
   * description that is truthy with `typeof` "object" is an object or an
   * array, never null.
   */
  lemma DecodeAcceptsExactlyWellFormed(parsed: Option<Value>)
    ensures Decode(parsed).Success? <==> parsed.Some? && WellFormed(parsed.value)
  {
  }

  /** `remoteOffer.description.type === "offer"` */
  predicate IsOfferType(description: Value)
  {
    Get(description, "type") == String("offer")
  }
}
