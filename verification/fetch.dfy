/**
 `fetchBalance`: one request to the balance-lookup service for one address. The HTTP
 call itself is abstract; what it hands back is an `ApiResponse`.
 */
module Fetch {
  import opened Options

  /** The JSON value found under `totalAssetInUsd`. `JOther` is any value that is
      neither `null` nor a number (a string, a boolean, an object or an array). */
  datatype Json = JNull | JNumber(n: real) | JOther

  /** The outcome of the request: it failed (transport error, non-2xx status), or it
      produced a body in which `data?.totalAssetInUsd` is absent (`None`) or present. A
      body that is not JSON arrives as a plain string, so the field is absent. */
  datatype ApiResponse = RequestFailed | Responded(totalAssetInUsd: Option<Json>)

  /** What `fetchBalance` resolves to; `None` is `undefined`, the value a failed request
      leaves behind because the `catch` block only logs and returns nothing. */
  function FetchBalance(resp: ApiResponse): (r: Option<Json>)
    ensures r.None? <==> resp.RequestFailed?
    ensures resp.Responded? && resp.totalAssetInUsd.Some? ==> r == resp.totalAssetInUsd
    ensures r == Some(JNumber(0.0)) <==>
              resp.Responded? && resp.totalAssetInUsd in {None, Some(JNumber(0.0))}
  {
    match resp
    case RequestFailed => None
    case Responded(field) =>
      match field
      case Some(v) => Some(v)
      case None => Some(JNumber(0.0))
  }

  /** The amount `currBalance.toFixed(0)` can format: only a number has `toFixed`;
      on `undefined`, `null` or any other value the call throws (`None`). */
  function Amount(v: Option<Json>): (r: Option<real>)
    ensures r.Some? <==> v.Some? && v.value.JNumber?
    ensures r.Some? ==> v == Some(JNumber(r.value))
  {
    match v
    case Some(JNumber(n)) => Some(n)
    case _ => None
  }

  /** The amount a wallet contributes to `/balance`, or `None` when formatting it throws. */
  function AmountOf(resp: ApiResponse): Option<real> {
    Amount(FetchBalance(resp))
  }

  /** A lookup yields no amount exactly when the request failed or the field holds a
      value other than a number; an absent field reads as a zero balance. */
  lemma AmountOfCases(resp: ApiResponse)
    ensures AmountOf(resp).None? <==>
              resp.RequestFailed? ||
              (resp.totalAssetInUsd.Some? && !resp.totalAssetInUsd.value.JNumber?)
    ensures resp == Responded(None) ==> AmountOf(resp) == Some(0.0)
    ensures resp.Responded? && resp.totalAssetInUsd.Some? && resp.totalAssetInUsd.value.JNumber? ==>
              AmountOf(resp) == Some(resp.totalAssetInUsd.value.n)
  {
  }
}
