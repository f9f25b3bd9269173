/** Outcomes of the ledger's handlers: a tagged result instead of HTTP status codes. */
module Outcomes {

  /** One constructor per error response the handlers send. */
  datatype Error =
    | MissingFields        // 400 'Dados obrigatórios ausentes.'
    | WeakPassword         // 400 'Senha fraca: ...'
    | AlreadyRegistered    // 409 'Usuário já cadastrado.'
    | UserNotFound         // 404 'Usuário não encontrado.'
    | InsufficientDiamonds // 400 'Diamantes insuficientes.'
    | InsufficientBalance  // 400 'Saldo insuficiente.'
    | AllAnswered          // 404 'Você já respondeu todas as perguntas desta categoria.'
    | ServerError          // 500 from a catch block, after a rollback

  datatype Result<T> = Ok(value: T) | Err(error: Error)

  /** A request field that may be absent (undefined in the body, NULL in the store). */
  datatype Option<T> = None | Some(value: T)

  function Min(a: int, b: int): int
  {
    if a <= b then a else b
  }
}
