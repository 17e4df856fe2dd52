/**
 * The brand form rule shared by the create and edit pages: `validate` over the form's text
 * fields, and the request body a valid form is sent as.
 */
module BrandForm {
  import opened Wrappers
  import opened Text
  import opened Records
  import opened ClientCommon
  import BrandRequestValidation

  /** The inputs of the form, by their `name` attribute. */
  datatype FormField = BrandNameField | ChainIdField | IsActiveField {
    function Name(): string {
      match this
      case BrandNameField => "brandName"
      case ChainIdField => "chainId"
      case IsActiveField => "isActive"
    }
  }

  /** An entry of the page's `errors` object; a field whose input changed holds the empty string. */
  datatype FormError = NameRequired | NameTooLong | SelectCompany | Cleared {
    function Message(): string {
      match this
      case NameRequired => "Brand name is required"
      case NameTooLong => "Brand name must not exceed 50 characters"
      case SelectCompany => "Please select a company"
      case Cleared => ""
    }
  }

  /** The client's limit on the trimmed name. */
  const NameLimit := 50

  /**
   * `validate`: a name error when the trimmed name is empty, otherwise when it is longer than
   * 50, so at most one; a chain error when no company is selected; no other key.
   */
  function Validate(brandName: string, chainId: string): (errs: map<FormField, FormError>)
    ensures BrandNameField in errs <==> Trim(brandName) == [] || |Trim(brandName)| > NameLimit
    ensures BrandNameField in errs ==>
              errs[BrandNameField] == if Trim(brandName) == [] then NameRequired else NameTooLong
    ensures ChainIdField in errs <==> chainId == []
    ensures ChainIdField in errs ==> errs[ChainIdField] == SelectCompany
    ensures IsActiveField !in errs
  {
    var nameErrors :=
      if Trim(brandName) == [] then map[BrandNameField := NameRequired]
      else if |Trim(brandName)| > NameLimit then map[BrandNameField := NameTooLong]
      else map[];
    if chainId == [] then nameErrors[ChainIdField := SelectCompany] else nameErrors
  }

  /** A form passes exactly when its trimmed name has 1 to 50 characters and a company is selected. */
  lemma FormValidIff(brandName: string, chainId: string)
    ensures Validate(brandName, chainId) == map[] <==> 1 <= |Trim(brandName)| <= NameLimit && chainId != []
  {
    if Validate(brandName, chainId) == map[] {
      assert BrandNameField !in Validate(brandName, chainId);
    }
  }

  /** Padding the name with whitespace never changes the verdict: `validate` looks at the trimmed name only. */
  lemma ValidateIgnoresPadding(brandName: string, chainId: string)
    ensures Validate(Trim(brandName), chainId) == Validate(brandName, chainId)
  {
    TrimIdempotent(brandName);
    var padded, trimmed := Validate(brandName, chainId), Validate(Trim(brandName), chainId);
    forall f: FormField ensures f in trimmed <==> f in padded {
      match f
      case BrandNameField =>
      case ChainIdField =>
      case IsActiveField =>
    }
    SameFormErrors(trimmed, padded);
  }

  /** Two error maps with the same fields and the same error in each field are the same map. */
  lemma SameFormErrors(errs1: map<FormField, FormError>, errs2: map<FormField, FormError>)
    requires forall f :: f in errs1 <==> f in errs2
    requires forall f :: f in errs1 ==> errs1[f] == errs2[f]
    ensures errs1 == errs2
  {
    assert errs1.Keys == errs2.Keys;
  }

  /** The body a valid form is sent as: the trimmed name, `Number(chainId)`, and the active flag when the form has one. */
  function SentRequest(brandName: string, chainId: string, isActive: Option<bool>): (body: BrandRequestBody)
    ensures body.brandName == Some(Trim(brandName)) && body.isActive == isActive
    ensures body.chainId == NumberOf(chainId)
  {
    BrandRequestBody(Some(Trim(brandName)), NumberOf(chainId), isActive)
  }

  /** What every body the pages send satisfies: a present, already trimmed name of 1 to 50 characters. */
  predicate NameSentTrimmed(body: BrandRequestBody) {
    && body.brandName.Some?
    && IsTrimmed(body.brandName.value)
    && 1 <= |body.brandName.value| <= NameLimit
  }

  /** A form that passes `validate` is sent with a trimmed name of 1 to 50 characters. */
  lemma AcceptedFormSendsTrimmedName(brandName: string, chainId: string, isActive: Option<bool>)
    requires Validate(brandName, chainId) == map[]
    ensures NameSentTrimmed(SentRequest(brandName, chainId, isActive))
  {
    FormValidIff(brandName, chainId);
  }

  /**
   * The server's Bean Validation accepts every body the form sends whose chain id survives
   * `Number`: the server measures the raw length, but the client has already trimmed it.
   */
  lemma SentBodyPassesServerValidation(body: BrandRequestBody)
    requires NameSentTrimmed(body) && body.chainId.Some?
    ensures BrandRequestValidation.IsValid(body)
  {
    BrandRequestValidation.ValidIff(body);
  }
}
