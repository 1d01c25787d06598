/** Values shared by the payment step-up server actions: the authenticated
    caller, the step tokens they mint, and the replies they return. The
    authenticator and the token signer (lib/highSecurityAuthenticator.ts,
    lib/stepTokens.ts) are not part of this model; their verdicts and minted
    values are parameters. */
module SecurityResults {
  import opened Common

  /** The caller as the high-security authenticator reports it. */
  datatype AuthUser = AuthUser(id: nat, email: string)

  /** A minted step token: the purpose it was signed for and its text. */
  datatype StepToken = StepToken(purpose: string, value: string)

  /** `{ success, message?, token? }` */
  datatype ActionResult = ActionResult(success: bool, message: Option<string>, token: Option<StepToken>)

  function Fail(message: string): ActionResult { ActionResult(false, Some(message), None) }

  function Succeed(token: StepToken): ActionResult { ActionResult(true, None, Some(token)) }

  const NotAuthorized := "Não autorizado"
  const NotAllowedToPay := "Usuário não autorizado para pagamentos"
  const ActionForbidden := "Você não pode realizar essa ação"
  const InvalidPassword := "Senha inválida"
  const InternalError := "Internal server error"
}
