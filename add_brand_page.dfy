/**
 * The "Add Brand" page: a form of a name and a company, checked by `validate` before
 * `createBrand` is called, with a `submitting` flag that disables the button while the call
 * is on its way. Each method names in its `modifies` clause the state fields it sets; the
 * others keep their values.
 */
module AddBrandPage {
  import opened Wrappers
  import opened Records
  import opened ClientCommon
  import opened BrandForm

  /** The page's `form` state: the name input and the company select. */
  datatype Form = Form(brandName: string, chainId: string)

  /** `INITIAL`. */
  const Initial := Form([], [])

  const CreatedText := "Brand created successfully!"
  const CreateFailed := "Failed to create brand"
  const LoadCompaniesFailed := "Failed to load companies"
  const DashboardPath := "/dashboard"

  /** Every body in `sent` has a trimmed name of 1 to 50 characters and no `isActive`. */
  predicate AllSentTrimmed(sent: seq<BrandRequestBody>) {
    forall body :: body in sent ==> NameSentTrimmed(body) && body.isActive.None?
  }

  /**
   * The page's state. `createRequests` logs the body of every `createBrand` call, `location`
   * the route it navigated to, if any.
   */
  class AddBrand {
    var form: Form
    var errors: map<FormField, FormError>
    var chains: seq<ChainDto>
    var submitting: bool
    var toasts: seq<Toast>
    var location: Option<string>
    var createRequests: seq<BrandRequestBody>

    /** No body with an untrimmed, empty or too long name is ever sent. */
    predicate Valid()
      reads this`createRequests
    {
      AllSentTrimmed(createRequests)
    }

    /** Mounting: the `INITIAL` form, no errors, not submitting; the companies are on their way. */
    constructor ()
      ensures Valid()
      ensures form == Initial && errors == map[] && chains == [] && !submitting
      ensures toasts == [] && location == None && createRequests == []
    {
      form := Initial;
      errors := map[];
      chains := [];
      submitting := false;
      toasts := [];
      location := None;
      createRequests := [];
    }

    /** The companies for the select arrive, or their failure is reported. */
    method OnChainsResponse(outcome: ApiOutcome<seq<ChainDto>>)
      modifies this`chains, this`toasts
      ensures outcome.Succeeded? ==> chains == outcome.data && toasts == old(toasts)
      ensures outcome.Failed? ==> chains == old(chains) && toasts == old(toasts) + [ErrorToast(LoadCompaniesFailed)]
    {
      match outcome
      case Succeeded(data) => chains := data;
      case Failed(_) => toasts := toasts + [ErrorToast(LoadCompaniesFailed)];
    }

    /** `handleChange`: the named input takes the new value and only its error is blanked. */
    method HandleChange(field: FormField, value: string)
      modifies this`form, this`errors
      requires field != IsActiveField
      ensures form.brandName == (if field == BrandNameField then value else old(form.brandName))
      ensures form.chainId == (if field == ChainIdField then value else old(form.chainId))
      ensures field in errors && errors[field] == Cleared && errors[field].Message() == []
      ensures errors.Keys == old(errors.Keys) + {field}
      ensures forall f :: f != field && f in old(errors) ==> errors[f] == old(errors)[f]
    {
      if field == BrandNameField {
        form := form.(brandName := value);
      } else {
        form := form.(chainId := value);
      }
      errors := errors[field := Cleared];
    }

    /**
     * `handleSubmit`: a form with errors shows them and sends nothing; a valid one sends the
     * trimmed name and `Number(chainId)` and marks the page as submitting.
     */
    method HandleSubmit()
      modifies this`errors, this`submitting, this`createRequests
      requires Valid() && !submitting
      ensures Valid()
      ensures Validate(old(form.brandName), old(form.chainId)) != map[] ==>
                errors == Validate(old(form.brandName), old(form.chainId)) && !submitting && createRequests == old(createRequests)
      ensures Validate(old(form.brandName), old(form.chainId)) == map[] ==>
                && errors == old(errors) && submitting
                && createRequests == old(createRequests) + [SentRequest(old(form.brandName), old(form.chainId), None)]
    {
      var errs := Validate(form.brandName, form.chainId);
      if errs != map[] {
        errors := errs;
        return;
      }
      var body := SentRequest(form.brandName, form.chainId, None);
      AcceptedFormSendsTrimmedName(form.brandName, form.chainId, None);
      submitting, createRequests := true, createRequests + [body];
    }

    /**
     * The `createBrand` call settles: a success is announced and goes to the dashboard; a
     * failure shows the server's message or a fallback and keeps the form as it is. Either way
     * the page stops submitting.
     */
    method OnCreateSettled(outcome: ApiOutcome<()>)
      modifies this`submitting, this`toasts, this`location
      requires submitting
      ensures !submitting
      ensures outcome.Succeeded? ==> toasts == old(toasts) + [SuccessToast(CreatedText)] && location == Some(DashboardPath)
      ensures outcome.Failed? ==>
                toasts == old(toasts) + [ErrorToast(ErrorText(outcome.message, CreateFailed))] && location == old(location)
    {
      submitting := false;
      match outcome
      case Succeeded(_) =>
        toasts := toasts + [SuccessToast(CreatedText)];
        location := Some(DashboardPath);
      case Failed(message) =>
        toasts := toasts + [ErrorToast(ErrorText(message, CreateFailed))];
    }
  }
}
