/** The JSON responses the handlers and middleware send: a status code and a body shape. */
module Http {
  import opened Gadgets

  datatype Body =
    | Error(error: string)
    | ConfirmationError(error: string, expectedCode: string, message: string)
    | GadgetBody(gadget: Gadget)
    | GadgetList(gadgets: map<Id, Gadget>)
    | GadgetMessage(message: string, gadget: Gadget)
    | TokenMessage(message: string, token: string)

  datatype Response = Response(status: int, body: Body)
}
