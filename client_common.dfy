/**
 * What the three pages share: the outcome of an API call as a page sees it, the toasts they
 * raise, the error text they show, and `Number(...)` on a select's value.
 */
module ClientCommon {
  import opened Wrappers
  import opened Text

  /**
   * A settled API call: the response's `data`, or a rejection carrying
   * `err.response?.data?.message`, absent when there was no response or no message.
   */
  datatype ApiOutcome<T> = Succeeded(data: T) | Failed(message: Option<string>)

  /** `toast.success(...)` and `toast.error(...)`. */
  datatype Toast = SuccessToast(text: string) | ErrorToast(text: string)

  /** `err.response?.data?.message || fallback`: an absent or empty message gives the fallback. */
  function ErrorText(message: Option<string>, fallback: string): (r: string)
    ensures message.Some? && message.value != [] ==> r == message.value
    ensures message.None? || message.value == [] ==> r == fallback
    ensures fallback != [] ==> r != []
  {
    if message.Some? && message.value != [] then message.value else fallback
  }

  /**
   * `Number(s)` as it reaches the server in the JSON body: the empty string is 0, a decimal
   * string is its value, and anything else is NaN, which JSON sends as `null`.
   */
  function NumberOf(s: string): (r: Option<int>)
    ensures s == [] ==> r == Some(0)
    ensures s != [] ==> (r.Some? <==> forall i :: 0 <= i < |s| ==> IsDigit(s[i]))
    ensures r.Some? ==> r.value >= 0
    ensures r.Some? && s != [] ==> r.value == DigitsValue(s)
  {
    if s == [] then Some(0)
    else match ParseDecimal(s)
      case Some(n) => Some(n)
      case None => None
  }

  /** `String(n)` read back by `Number(...)` gives `n`. */
  lemma NumberOfString(n: nat)
    ensures NumberOf(DecimalString(n)) == Some(n)
  {
    DecimalRoundTrip(n);
  }
}
