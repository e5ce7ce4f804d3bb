/** The decision logic of the `POST /login` handler: from the request's
    `cpf` and `senha` and the outcome of the user lookup to the HTTP status and
    JSON body sent back. */
module LoginRoute {
  import opened Results

  /** One row of the user query: `NOME` and `SENHA` (the stored password may
      be NULL in the database). */
  datatype UserRow = UserRow(nome: string, senha: Option<string>)

  /** The lookup of active users with a given `cpfven`: it throws, or yields
      `result.rows`, which may be absent. */
  datatype Lookup = LookupFailed | LookupRows(rows: Option<seq<UserRow>>)

  /** The JSON body; a `None` field is one the body does not carry. */
  datatype Body = Body(success: bool, message: string,
                       cadastro: Option<string>, password: Option<string>,
                       user: Option<string>)

  datatype Reply = Reply(status: int, body: Body)

  const MissingMessage := "CPF e Senha são obrigatórios."
  const SuccessMessage := "Login bem-sucedido!"
  const WrongPasswordMessage := "Senha incorreta."
  const NotFoundMessage := "Usuário não encontrado."
  const ServerErrorMessage := "Erro no servidor."

  /** JavaScript truthiness of an optional string: present and not empty. */
  predicate Truthy(v: Option<string>) {
    v.Some? && v.value != ""
  }

  /** The first returned row, when there is one. */
  function FirstRow(l: Lookup): (first: Option<UserRow>)
  {
    if l.LookupRows? && l.rows.Some? && |l.rows.value| > 0 then Some(l.rows.value[0]) else None
  }

  /** The handler, `lookup` standing for the query of the user by CPF. */
  function Login(cpf: Option<string>, senha: Option<string>, lookup: string -> Lookup): (r: Reply)
    ensures r.status == 400 <==> !Truthy(cpf) || !Truthy(senha)
    ensures r.status == 400 ==> r.body == Body(false, MissingMessage, cpf, senha, None)
    ensures r.status != 400 ==>
      var found := FirstRow(lookup(cpf.value));
      && r.body.cadastro == None && r.body.password == None
      && (r.status == 500 <==> lookup(cpf.value).LookupFailed?)
      && (r.status == 404 <==> lookup(cpf.value).LookupRows? && found.None?)
      && (r.status == 200 <==> found.Some? && found.value.senha == senha)
      && (r.status == 401 <==> found.Some? && found.value.senha != senha)
  {
    if !Truthy(cpf) || !Truthy(senha) then
      Reply(400, Body(false, MissingMessage, cpf, senha, None))
    else
      match lookup(cpf.value)
      case LookupFailed => Reply(500, Body(false, ServerErrorMessage, None, None, None))
      case LookupRows(rows) =>
        if rows.Some? && |rows.value| > 0 then
          var user := rows.value[0];
          if senha == user.senha then
            Reply(200, Body(true, SuccessMessage, None, None, Some(user.nome)))
          else
            Reply(401, Body(false, WrongPasswordMessage, None, None, None))
        else
          Reply(404, Body(false, NotFoundMessage, None, None, None))
  }

  /** Success, and only success, carries the user's name: exactly when the
      first row's stored password equals the given one character for
      character. */
  lemma SuccessIffPasswordMatches(cpf: Option<string>, senha: Option<string>, lookup: string -> Lookup)
    ensures var r := Login(cpf, senha, lookup);
      r.body.success <==>
        Truthy(cpf) && Truthy(senha) && FirstRow(lookup(cpf.value)).Some?
        && FirstRow(lookup(cpf.value)).value.senha == senha
    ensures var r := Login(cpf, senha, lookup);
      r.body.success ==>
        r.status == 200 && r.body.message == SuccessMessage
        && r.body.user == Some(FirstRow(lookup(cpf.value)).value.nome)
    ensures var r := Login(cpf, senha, lookup);
      !r.body.success ==> r.body.user == None
  {
  }

  /** Each failure carries its own fixed message. */
  lemma FailureMessages(cpf: Option<string>, senha: Option<string>, lookup: string -> Lookup)
    ensures var r := Login(cpf, senha, lookup);
      && (r.status == 401 ==> r.body == Body(false, WrongPasswordMessage, None, None, None))
      && (r.status == 404 ==> r.body == Body(false, NotFoundMessage, None, None, None))
      && (r.status == 500 ==> r.body == Body(false, ServerErrorMessage, None, None, None))
      && r.status in {200, 400, 401, 404, 500}
  {
  }

  /** With a missing or empty credential no lookup takes place: the reply is
      the same whatever the database would have answered. */
  lemma NoLookupWithoutCredentials(cpf: Option<string>, senha: Option<string>,
                                   lookup1: string -> Lookup, lookup2: string -> Lookup)
    requires !Truthy(cpf) || !Truthy(senha)
    ensures Login(cpf, senha, lookup1) == Login(cpf, senha, lookup2)
  {
  }

  /** The lookup is made with the given CPF, and only its first row is
      consulted: two lookups whose answers for this CPF agree on the first row
      give the same reply. */
  lemma OnlyFirstRowConsulted(cpf: Option<string>, senha: Option<string>,
                              lookup1: string -> Lookup, lookup2: string -> Lookup)
    requires Truthy(cpf)
    requires lookup1(cpf.value).LookupFailed? == lookup2(cpf.value).LookupFailed?
    requires FirstRow(lookup1(cpf.value)) == FirstRow(lookup2(cpf.value))
    ensures Login(cpf, senha, lookup1) == Login(cpf, senha, lookup2)
  {
  }
}
