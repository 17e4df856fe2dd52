/**
 * `GlobalExceptionHandler`: every exception that escapes a controller becomes a status and a
 * JSON body built by `buildError`, whose keys are `timestamp`, `status`, `error`, `message`
 * and, only when there are details, `details`.
 */
module ExceptionHandler {
  import opened Wrappers
  import opened LinkedMaps
  import opened BrandRequestValidation
  import opened BrandService
  import opened ErrorBody

  /**
   * The exceptions the handler distinguishes. `message` is `getMessage()`, which may be
   * null; the binding failure carries the field errors of the rejected body.
   */
  datatype Thrown =
    | ArgumentNotValid(errors: seq<FieldError>)
    | ResourceNotFound(message: Option<string>)
    | DuplicateBrand(message: Option<string>)
    | BrandLinkedToZone(message: Option<string>)
    | Unexpected(message: Option<string>)

  /** The message `DuplicateBrandException` is built with. */
  function DuplicateMessage(brandName: string, chainName: string): string {
    "Brand '" + brandName + "' already exists under company '" + chainName + "'"
  }

  /** The message `BrandLinkedToZoneException` is built with. */
  function LinkedToZoneMessage(brandName: string): string {
    "Brand '" + brandName + "' cannot be deleted because it is linked to one or more Zones."
  }

  /**
   * The exception each service error is thrown as. The text of `ResourceNotFoundException` and
   * of the database's constraint violation is not part of this model, so it is passed in.
   */
  function Raised(e: ServiceError, otherMessage: string): (t: Thrown)
    ensures (e.ChainNotFound? || e.BrandNotFound?) <==> t.ResourceNotFound?
    ensures e.DuplicateBrand? <==> t.DuplicateBrand?
    ensures e.LinkedToZone? <==> t.BrandLinkedToZone?
    ensures e.DataIntegrityViolation? <==> t.Unexpected?
    ensures e.DuplicateBrand? ==> t.message == Some(DuplicateMessage(e.brandName, e.chainName))
    ensures e.LinkedToZone? ==> t.message == Some(LinkedToZoneMessage(e.brandName))
  {
    match e
    case ChainNotFound(_) => ResourceNotFound(Some(otherMessage))
    case BrandNotFound(_) => ResourceNotFound(Some(otherMessage))
    case DuplicateBrand(name, chainName) => Thrown.DuplicateBrand(Some(DuplicateMessage(name, chainName)))
    case LinkedToZone(name) => BrandLinkedToZone(Some(LinkedToZoneMessage(name)))
    case DataIntegrityViolation => Unexpected(Some(otherMessage))
  }

  const ValidationFailed := "Validation failed"
  const UnexpectedPrefix := "An unexpected error occurred: "

  /** Java's string concatenation renders a null message as `null`. */
  function Concatenated(prefix: string, message: Option<string>): (r: string)
    ensures |prefix| <= |r| && r[..|prefix|] == prefix
    ensures r[|prefix|..] == if message.Some? then message.value else "null"
  {
    prefix + if message.Some? then message.value else "null"
  }

  /** The binding result's field errors as (field, message) pairs, in order. */
  function Pairs(errors: seq<FieldError>): (ps: seq<(string, string)>)
    ensures |ps| == |errors|
    ensures forall k :: 0 <= k < |errors| ==> ps[k] == (errors[k].field, errors[k].message)
  {
    seq(|errors|, k requires 0 <= k < |errors| => (errors[k].field, errors[k].message))
  }

  /**
   * What the loop of `handleValidation` builds: every field with an error gets exactly one
   * entry, and the fields appear in the order of their first error.
   */
  lemma FieldErrorsKeys(errors: seq<FieldError>)
    ensures DistinctKeys(PutAll(Pairs(errors)))
    ensures forall f :: Get(PutAll(Pairs(errors)), f).Some? <==> exists k :: 0 <= k < |errors| && errors[k].field == f
    ensures InFirstOrder(Keys(PutAll(Pairs(errors))), Pairs(errors))
  {
    var ps := Pairs(errors);
    PutAllFirstOrder(ps);
    forall f ensures Get(PutAll(ps), f).Some? <==> exists k :: 0 <= k < |errors| && errors[k].field == f {
      PutAllHasKey(ps, f);
      if f in Keys(ps) {
        var k :| 0 <= k < |ps| && Keys(ps)[k] == f;
        assert errors[k].field == f;
      }
      if exists k :: 0 <= k < |errors| && errors[k].field == f {
        var k :| 0 <= k < |errors| && errors[k].field == f;
        assert Keys(ps)[k] == f;
      }
    }
  }

  /** A field's entry holds the message of that field's LAST error. */
  lemma FieldErrorsLastWins(errors: seq<FieldError>, k: nat)
    requires k < |errors|
    requires forall q :: k < q < |errors| ==> errors[q].field != errors[k].field
    ensures Get(PutAll(Pairs(errors)), errors[k].field) == Some(errors[k].message)
  {
    var ps := Pairs(errors);
    PutAllLastWins(ps, errors[k].field);
    assert forall q :: k < q < |ps| ==> ps[q].0 != errors[k].field;
  }

  /** The loop of `handleValidation`: one `put` per field error, in the binding result's order. */
  method CollectFieldErrors(errors: seq<FieldError>) returns (m: Entries<string, string>)
    ensures m == PutAll(Pairs(errors))
  {
    var ps := Pairs(errors);
    m := [];
    var i := 0;
    while i < |errors|
      invariant 0 <= i <= |errors|
      invariant m == PutAll(ps[..i])
    {
      assert ps[..i + 1][..i] == ps[..i];
      m := Put(m, errors[i].field, errors[i].message);
      i := i + 1;
    }
    assert ps[..i] == ps;
  }

  /** The handler each exception reaches, and the response it builds. */
  method Handle(t: Thrown, timestamp: string) returns (status: HttpStatus, body: Entries<BodyKey, Json>)
    ensures status == match t
      case ArgumentNotValid(_) => BadRequest
      case ResourceNotFound(_) => NotFound
      case DuplicateBrand(_) => Conflict
      case BrandLinkedToZone(_) => Conflict
      case Unexpected(_) => InternalServerError
    ensures Get(body, Status) == Some(Number(status.Code()))
    ensures Get(body, Error) == Some(Text(status.ReasonPhrase()))
    ensures Get(body, Message) == Some(match t
      case ArgumentNotValid(_) => Text(ValidationFailed)
      case Unexpected(m) => Text(Concatenated(UnexpectedPrefix, m))
      case _ => if t.message.Some? then Text(t.message.value) else Null)
    ensures Get(body, Details).Some? <==> t.ArgumentNotValid?
    ensures t.ArgumentNotValid? ==> Get(body, Details) == Some(Object(PutAll(Pairs(t.errors))))
  {
    match t
    case ArgumentNotValid(errors) =>
      var fieldErrors := CollectFieldErrors(errors);
      status := BadRequest;
      body := BuildError(status, Text(ValidationFailed), Some(fieldErrors), timestamp);
    case ResourceNotFound(m) =>
      status := NotFound;
      body := BuildError(status, if m.Some? then Text(m.value) else Null, None, timestamp);
    case DuplicateBrand(m) =>
      status := Conflict;
      body := BuildError(status, if m.Some? then Text(m.value) else Null, None, timestamp);
    case BrandLinkedToZone(m) =>
      status := Conflict;
      body := BuildError(status, if m.Some? then Text(m.value) else Null, None, timestamp);
    case Unexpected(m) =>
      status := InternalServerError;
      body := BuildError(status, Text(Concatenated(UnexpectedPrefix, m)), None, timestamp);
  }
}
