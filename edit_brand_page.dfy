/**
 * The "Edit Brand" page: it loads the brand with the given id and the companies together,
 * fills the form with the brand (the company as `String(chainId)`), and sends the same
 * `validate`d form to `updateBrand`, with the active checkbox as `isActive`. Each method names
 * in its `modifies` clause the state fields it sets; the others keep their values.
 */
module EditBrandPage {
  import opened Wrappers
  import opened Text
  import opened Records
  import opened ClientCommon
  import opened BrandForm
  import BrandRequestValidation

  /** The page's `form` state: the name input, the company select and the active checkbox. */
  datatype Form = Form(brandName: string, chainId: string, isActive: bool)

  /** The form before the brand has loaded. */
  const Empty := Form([], [], true)

  const UpdatedText := "Brand updated successfully!"
  const UpdateFailed := "Failed to update brand"
  const LoadFailed := "Failed to load brand details"
  const DashboardPath := "/dashboard"

  /** The form filled from a loaded brand: its name, `String(chainId)` and its active flag. */
  function Loaded(b: BrandDto): (f: Form)
    ensures f.brandName == b.brandName && f.isActive == b.isActive
    ensures NumberOf(f.chainId) == Some(b.chainId)
  {
    NumberOfString(b.chainId);
    Form(b.brandName, DecimalString(b.chainId), b.isActive)
  }

  /**
   * A brand the server hands out (its name trimmed, of 1 to 50 characters) fills a form that
   * passes `validate`, and submitting that form unchanged sends back the same name, the same
   * company and the same active flag, which the server's validation accepts.
   */
  lemma LoadedBrandResubmits(b: BrandDto)
    requires IsTrimmed(b.brandName) && 1 <= |b.brandName| <= NameLimit
    ensures Validate(Loaded(b).brandName, Loaded(b).chainId) == map[]
    ensures SentRequest(Loaded(b).brandName, Loaded(b).chainId, Some(Loaded(b).isActive))
            == BrandRequestBody(Some(b.brandName), Some(b.chainId), Some(b.isActive))
    ensures BrandRequestValidation.IsValid(SentRequest(Loaded(b).brandName, Loaded(b).chainId, Some(b.isActive)))
  {
    var f := Loaded(b);
    TrimFixedIff(b.brandName);
    FormValidIff(f.brandName, f.chainId);
    SentBodyPassesServerValidation(SentRequest(f.brandName, f.chainId, Some(b.isActive)));
  }

  /** Every body in `sent` has a trimmed name of 1 to 50 characters and carries the active flag. */
  predicate AllSentTrimmed(sent: seq<BrandRequestBody>) {
    forall body :: body in sent ==> NameSentTrimmed(body) && body.isActive.Some?
  }

  /**
   * The page's state for the brand `id` of the route. `updateRequests` logs the body of every
   * `updateBrand(id, ...)` call, `location` the route it navigated to, if any.
   */
  class EditBrand {
    const id: string
    var form: Form
    var errors: map<FormField, FormError>
    var chains: seq<ChainDto>
    var loading: bool
    var submitting: bool
    var toasts: seq<Toast>
    var location: Option<string>
    var updateRequests: seq<BrandRequestBody>

    /** No body with an untrimmed, empty or too long name is ever sent. */
    predicate Valid()
      reads this`updateRequests
    {
      AllSentTrimmed(updateRequests)
    }

    /** Mounting: an empty form that is active, no errors, and both loads on their way. */
    constructor (id: string)
      ensures Valid() && this.id == id
      ensures form == Empty && errors == map[] && chains == [] && loading && !submitting
      ensures toasts == [] && location == None && updateRequests == []
    {
      this.id := id;
      form := Empty;
      errors := map[];
      chains := [];
      loading := true;
      submitting := false;
      toasts := [];
      location := None;
      updateRequests := [];
    }

    /**
     * Both loads settle (`Promise.all`): when both succeed the form holds the loaded brand and
     * the companies are kept; when either fails the failure is reported and the page goes back
     * to the dashboard. Either way loading ends.
     */
    method OnLoadSettled(brandOutcome: ApiOutcome<BrandDto>, chainsOutcome: ApiOutcome<seq<ChainDto>>)
      modifies this`form, this`chains, this`loading, this`toasts, this`location
      requires loading
      ensures !loading
      ensures brandOutcome.Succeeded? && chainsOutcome.Succeeded? ==>
                && form == Loaded(brandOutcome.data) && chains == chainsOutcome.data
                && toasts == old(toasts) && location == old(location)
      ensures brandOutcome.Failed? || chainsOutcome.Failed? ==>
                && form == old(form) && chains == old(chains)
                && toasts == old(toasts) + [ErrorToast(LoadFailed)] && location == Some(DashboardPath)
    {
      loading := false;
      if brandOutcome.Succeeded? && chainsOutcome.Succeeded? {
        form := Loaded(brandOutcome.data);
        chains := chainsOutcome.data;
      } else {
        toasts := toasts + [ErrorToast(LoadFailed)];
        location := Some(DashboardPath);
      }
    }

    /**
     * `handleChange`: the checkbox stores `checked`, the other inputs their `value`; only
     * the changed field's error is blanked.
     */
    method HandleChange(field: FormField, value: string, checked: bool)
      modifies this`form, this`errors
      ensures form.brandName == (if field == BrandNameField then value else old(form.brandName))
      ensures form.chainId == (if field == ChainIdField then value else old(form.chainId))
      ensures form.isActive == (if field == IsActiveField then checked else old(form.isActive))
      ensures field in errors && errors[field] == Cleared && errors[field].Message() == []
      ensures errors.Keys == old(errors.Keys) + {field}
      ensures forall f :: f != field && f in old(errors) ==> errors[f] == old(errors)[f]
    {
      errors := errors[field := Cleared];
      match field
      case BrandNameField => form := form.(brandName := value);
      case ChainIdField => form := form.(chainId := value);
      case IsActiveField => form := form.(isActive := checked);
    }

    /**
     * `handleSubmit` (the form is shown once loading has ended): a form with errors shows them
     * and sends nothing; a valid one sends the trimmed name, `Number(chainId)` and the
     * checkbox's value, and marks the page as submitting.
     */
    method HandleSubmit()
      modifies this`errors, this`submitting, this`updateRequests
      requires Valid() && !loading && !submitting
      ensures Valid()
      ensures Validate(old(form.brandName), old(form.chainId)) != map[] ==>
                errors == Validate(old(form.brandName), old(form.chainId)) && !submitting && updateRequests == old(updateRequests)
      ensures Validate(old(form.brandName), old(form.chainId)) == map[] ==>
                && errors == old(errors) && submitting
                && updateRequests == old(updateRequests) + [SentRequest(old(form.brandName), old(form.chainId), Some(old(form.isActive)))]
    {
      var errs := Validate(form.brandName, form.chainId);
      if errs != map[] {
        errors := errs;
        return;
      }
      var body := SentRequest(form.brandName, form.chainId, Some(form.isActive));
      AcceptedFormSendsTrimmedName(form.brandName, form.chainId, Some(form.isActive));
      submitting, updateRequests := true, updateRequests + [body];
    }

    /**
     * The `updateBrand` call settles: a success is announced and goes to the dashboard; a
     * failure shows the server's message or a fallback and keeps the form. Either way the page
     * stops submitting.
     */
    method OnUpdateSettled(outcome: ApiOutcome<()>)
      modifies this`submitting, this`toasts, this`location
      requires submitting
      ensures !submitting
      ensures outcome.Succeeded? ==> toasts == old(toasts) + [SuccessToast(UpdatedText)] && location == Some(DashboardPath)
      ensures outcome.Failed? ==>
                toasts == old(toasts) + [ErrorToast(ErrorText(outcome.message, UpdateFailed))] && location == old(location)
    {
      submitting := false;
      match outcome
      case Succeeded(_) =>
        toasts := toasts + [SuccessToast(UpdatedText)];
        location := Some(DashboardPath);
      case Failed(message) =>
        toasts := toasts + [ErrorToast(ErrorText(message, UpdateFailed))];
    }
  }
}
