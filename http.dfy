/** The JSON replies the handlers send: `res.status(s).json({ success, message, data })`. */
module Http {
  import opened Base

  datatype Reply<+D> =
    /** `{ success: false, message }` */
    | Fail(status: int, message: string)
    /** `{ success: true, message?, data }`; `notice` is the optional message */
    | Success(status: int, notice: Option<string>, data: D)
}
