/**
 * What an Express handler hands back: a JSON reply with its HTTP status, or
 * an error passed on with `next(e)` to the shared error middleware.
 */
module Http {
  import opened Wrappers

  /** One entry of express-validator's `validationResult(req).array()`. */
  datatype FieldError = FieldError(location: string, param: string, msg: string)

  /** The JSON bodies the handlers send. */
  datatype Body<D> =
    | Errors(errors: seq<FieldError>)                      // `{ errors: [...] }`
    | Envelope(code: int, message: string, data: Option<D>) // `{ code, message, data? }`

  datatype Reply<D> =
    | Json(status: int, body: Body<D>)  // `res.status(s).json(b)`; `res.json` and `res.send` use 200
    | Next(error: string)               // `next(e)` with the error's message

  const StatusOk := 200
  const StatusBadRequest := 400
  const SuccessMessage := "success"
}
