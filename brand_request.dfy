/**
 * Bean Validation of the brand request body (`BrandRequestDTO`): `@NotBlank` and
 * `@Size(max = 50)` on `brandName`, `@NotNull` on `chainId`, nothing on `isActive`.
 * The constraints are checked in declaration order; each violated one yields a field error.
 */
module BrandRequestValidation {
  import opened Wrappers
  import opened Text
  import opened Records

  /** A violated constraint of the request body. */
  datatype Violation = BlankName | NameTooLong | MissingChain {
    /** The field it is reported on. */
    function Field(): string {
      if MissingChain? then "chainId" else "brandName"
    }
    /** The `message` attribute of the constraint annotation. */
    function Message(): string {
      match this
      case BlankName => "Brand name is required"
      case NameTooLong => "Brand name must not exceed 50 characters"
      case MissingChain => "Chain ID (Company) is required"
    }
  }

  /** One violated constraint, as Spring's `FieldError` carries it: field name and default message. */
  datatype FieldError = FieldError(field: string, message: string)

  const MaxNameLength := 50

  /** All characters of `s` are whitespace (vacuously so for the empty string). */
  predicate AllSpace(s: string) {
    forall i :: 0 <= i < |s| ==> IsSpace(s[i])
  }

  /** `@NotBlank`: the value is present and its trimmed form is not empty. */
  predicate NotBlank(v: Option<string>) {
    v.Some? && Trim(v.value) != []
  }

  /** `@Size(max = 50)`: an absent value passes; a present one is measured untrimmed. */
  predicate SizeWithinMax(v: Option<string>) {
    v.None? || |v.value| <= MaxNameLength
  }

  /** The constraints `body` violates, in declaration order. */
  function Validate(body: BrandRequestBody): (violations: seq<Violation>)
    ensures BlankName in violations <==> body.brandName.None? || AllSpace(body.brandName.value)
    ensures NameTooLong in violations <==> body.brandName.Some? && |body.brandName.value| > MaxNameLength
    ensures MissingChain in violations <==> body.chainId.None?
    ensures |violations| <= 3
    ensures forall i, j :: 0 <= i < j < |violations| ==> violations[i] != violations[j]
  {
    TrimEmptyIff(body.brandName.GetOr([]));
    var blank := if NotBlank(body.brandName) then [] else [BlankName];
    var tooLong := if SizeWithinMax(body.brandName) then [] else [NameTooLong];
    var missing := if body.chainId.Some? then [] else [MissingChain];
    DistinctParts(blank, tooLong, missing);
    blank + tooLong + missing
  }

  /** Three parts of at most one violation each, all different, concatenate without repeats. */
  lemma DistinctParts(blank: seq<Violation>, tooLong: seq<Violation>, missing: seq<Violation>)
    requires blank == [] || blank == [BlankName]
    requires tooLong == [] || tooLong == [NameTooLong]
    requires missing == [] || missing == [MissingChain]
    ensures var vs := blank + tooLong + missing;
      forall i, j :: 0 <= i < j < |vs| ==> vs[i] != vs[j]
  {
    var vs := blank + tooLong + missing;
    forall i, j | 0 <= i < j < |vs| ensures vs[i] != vs[j] {
      assert vs[i] in blank + tooLong + missing && vs[j] in blank + tooLong + missing;
    }
  }

  /** The binding result's field errors for `body`: one per violation, in the same order. */
  function FieldErrors(body: BrandRequestBody): (errors: seq<FieldError>)
    ensures |errors| == |Validate(body)|
    ensures forall k :: 0 <= k < |errors| ==>
      errors[k] == FieldError(Validate(body)[k].Field(), Validate(body)[k].Message())
  {
    var vs := Validate(body);
    seq(|vs|, k requires 0 <= k < |vs| => FieldError(vs[k].Field(), vs[k].Message()))
  }

  /** A body that passes validation, which is what the controller hands to the brand service. */
  predicate IsValid(body: BrandRequestBody) {
    Validate(body) == []
  }

  /** A body is valid exactly when its name has a non-whitespace character and at most 50 characters and its chain id is present; `isActive` plays no part. */
  lemma ValidIff(body: BrandRequestBody)
    ensures IsValid(body) <==>
      && body.brandName.Some?
      && !AllSpace(body.brandName.value)
      && |body.brandName.value| <= MaxNameLength
      && body.chainId.Some?
  {
    if body.brandName.Some? { TrimEmptyIff(body.brandName.value); }
  }

  /**
   * What a body that passed validation guarantees the brand service: both fields are present
   * and the trimmed name has 1 to 50 characters.
   */
  predicate Accepted(body: BrandRequestBody) {
    && body.brandName.Some? && body.chainId.Some?
    && 1 <= |Trim(body.brandName.value)| <= MaxNameLength
  }

  /** A valid body is accepted: its trimmed name is not blank and at most 50 characters. */
  lemma {:induction false} ValidTrimmedName(body: BrandRequestBody)
    requires IsValid(body)
    ensures Accepted(body)
  {
    ValidIff(body);
    TrimEmptyIff(body.brandName.value);
  }
}
