/** The responses the handlers send: a status code and a JSON body. */
module Http {
  import opened Models

  const StatusOK: nat := 200
  const StatusCreated: nat := 201
  const StatusBadRequest: nat := 400
  const StatusUnauthorized: nat := 401
  const StatusForbidden: nat := 403
  const StatusInternalServerError: nat := 500

  /** The user object in a login response: id, email and role only. */
  datatype LoginView = LoginView(id: nat, email: string, role: Role)

  datatype Body =
    | Error(error: string)
    | Message(message: string)
    | Registered(message: string, user: UserView)
    | LoggedIn(token: Bytes, account: LoginView)
    | Users(users: seq<UserView>)
    | SettingBody(setting: Setting)

  datatype Response = Response(status: nat, body: Body)

  /** A response of the form `{"error": msg}`. */
  function Fail(status: nat, msg: string): Response
  {
    Response(status, Error(msg))
  }
}
