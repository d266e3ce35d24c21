/** The remote service's response envelope and its unwrapping (`parseApiResponse`). */
module Api {
  import opened Wrappers

  /** `{ data: T, total?: number }`. */
  datatype Payload<T> = Payload(data: T, total: Option<int>)

  /** `{ code: number, data: Payload<T> }`. */
  datatype Envelope<T> = Envelope(code: int, data: Payload<T>)

  /** The `Error` thrown for a non-success code; it carries the code. */
  datatype ApiError = RequestFailed(code: int)

  /** The one code the service uses for success. */
  const SuccessCode: int := 200

  /** `parseApiResponse`: the inner `data.data` when the code is 200, an error naming the code otherwise. */
  function ParseApiResponse<T>(response: Envelope<T>): (r: Result<T, ApiError>)
    ensures r.Ok? <==> response.code == SuccessCode
    ensures r.Ok? ==> r.value == response.data.data
    ensures r.Err? ==> r.error == RequestFailed(response.code)
  {
    if response.code != SuccessCode then Err(RequestFailed(response.code))
    else Ok(response.data.data)
  }

  /** Wrapping a value in a success envelope and unwrapping it gives the value back, whatever `total` says. */
  lemma UnwrapWrapped<T>(x: T, total: Option<int>)
    ensures ParseApiResponse(Envelope(SuccessCode, Payload(x, total))) == Ok(x)
  {
  }

  /** The optional `total` never affects the outcome. */
  lemma TotalIgnored<T>(code: int, x: T, t1: Option<int>, t2: Option<int>)
    ensures ParseApiResponse(Envelope(code, Payload(x, t1))) == ParseApiResponse(Envelope(code, Payload(x, t2)))
  {
  }

  /** There is no success range: every code other than 200, including the rest of 2xx, is a failure. */
  lemma OnlyCode200Succeeds<T>(response: Envelope<T>)
    requires response.code != SuccessCode
    ensures ParseApiResponse(response).Err?
  {
  }
}
