/** The JSON responses the handlers send, one constructor per shape. Every
    failure is `{ success: false, error }` with its status code. */
module Http {
  import opened Json

  datatype Response =
    | Failure(code: nat, error: string)                               // { success: false, error }
    | Session(code: nat, message: string, user: Row, token: string)    // register, login
    | Profile(user: Row)                                               // /auth/me
    | Listing(rows: seq<Row>)                                          // list endpoints
    | Record(code: nat, note: Option<string>, row: Row)                 // create, update, send
    | Done(message: string)                                            // delete

  const InternalError := "Erro interno do servidor"
}
