/** The errors the services throw, each with the exact message text the
    controllers forward to the client. */
module Errors {
  import opened Wrappers

  datatype Error =
    | MissingTransferData         // a transfer without sender, recipient or amount
    | NonPositiveAmount           // a transfer amount below zero
    | SelfTransfer                // sender and recipient are the same id
    | SenderNotFound              // no account holds the sender id
    | RecipientNotFound           // no account holds the recipient id
    | InsufficientBalance         // sender balance below the amount
    | NonFavouredLimit            // more than 5000 to a non-favoured recipient
    | UserAlreadyExists           // registration with an email already in use
    | RegistrationFieldsRequired  // registration without email, password or name
    | LoginFieldsRequired         // login without email or password
    | UserNotFound                // no account for the email or id asked for
    | InvalidPassword             // the password does not match the stored hash

  /** The text the client receives for `e`. */
  function Message(e: Error): string {
    match e
    case MissingTransferData => "Dados obrigatórios não informados"
    case NonPositiveAmount => "Valor deve ser maior que zero"
    case SelfTransfer => "Não é possível transferir para si mesmo"
    case SenderNotFound => "Usuário remetente não encontrado"
    case RecipientNotFound => "Usuário destinatário não encontrado"
    case InsufficientBalance => "Saldo insuficiente"
    case NonFavouredLimit => "Transferências para usuários não favorecidos só podem ser até R$ 5.000,00"
    case UserAlreadyExists => "Usuário já existe"
    case RegistrationFieldsRequired => "Email, senha e nome são obrigatórios"
    case LoginFieldsRequired => "Email e senha são obrigatórios"
    case UserNotFound => "Usuário não encontrado"
    case InvalidPassword => "Senha inválida"
  }

  /** Which error a message text reports, if any: how a client reads the
      text back. The texts all differ in length, so the length picks the
      one candidate, and the text must then be that candidate's message. */
  function ErrorOf(m: string): Option<Error> {
    var candidate :=
      match |m|
      case 33 => Some(MissingTransferData)
      case 29 => Some(NonPositiveAmount)
      case 39 => Some(SelfTransfer)
      case 32 => Some(SenderNotFound)
      case 35 => Some(RecipientNotFound)
      case 18 => Some(InsufficientBalance)
      case 73 => Some(NonFavouredLimit)
      case 17 => Some(UserAlreadyExists)
      case 36 => Some(RegistrationFieldsRequired)
      case 30 => Some(LoginFieldsRequired)
      case 22 => Some(UserNotFound)
      case 14 => Some(InvalidPassword)
      case _ => None;
    if candidate.Some? && Message(candidate.value) == m then candidate else None
  }

  /** Every error has a text of its own: reading a message back gives the
      error that produced it, so no two errors share a message. */
  lemma MessageIdentifiesError(e: Error)
    ensures ErrorOf(Message(e)) == Some(e)
  {
    match e
    case MissingTransferData =>
    case NonPositiveAmount =>
    case SelfTransfer =>
    case SenderNotFound =>
    case RecipientNotFound =>
    case InsufficientBalance =>
    case NonFavouredLimit =>
    case UserAlreadyExists =>
    case RegistrationFieldsRequired =>
    case LoginFieldsRequired =>
    case UserNotFound =>
    case InvalidPassword =>
  }
}
