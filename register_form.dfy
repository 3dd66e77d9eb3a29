/**
 * The registration form's submit handler: clear the previous error, refuse
 * mismatching passwords, then too-short ones, and only then call `register`
 * between setting and clearing the loading flag.
 *
 * `register` comes from the session context, which in this snapshot provides
 * none; whether the awaited call resolves or throws is a parameter.
 */
module RegisterForm {

  const MISMATCH_ERROR: string := "As senhas não coincidem."
  const TOO_SHORT_ERROR: string := "A senha deve ter pelo menos 6 caracteres."
  const MIN_SENHA_LENGTH: nat := 6

  /**
   * The validation error for a password pair, or "" when there is none.
   * The mismatch check comes first, so it wins over the length check.
   */
  function PasswordError(senha: string, confirmSenha: string): (e: string)
    ensures e == MISMATCH_ERROR <==> senha != confirmSenha
    ensures e == TOO_SHORT_ERROR <==> senha == confirmSenha && |senha| < MIN_SENHA_LENGTH
    ensures e == "" <==> senha == confirmSenha && |senha| >= MIN_SENHA_LENGTH
  {
    if senha != confirmSenha then MISMATCH_ERROR
    else if |senha| < MIN_SENHA_LENGTH then TOO_SHORT_ERROR
    else ""
  }

  /** The pair passes both checks. */
  predicate Valid(senha: string, confirmSenha: string) {
    senha == confirmSenha && |senha| >= MIN_SENHA_LENGTH
  }

  /** What the awaited `register` call does. */
  datatype CallOutcome = Resolved | Rejected(message: string)

  /** The state updates and calls the handler performs, in order. */
  datatype FormStep =
    | SetPasswordError(message: string)
    | SetIsLoading(on: bool)
    | CallRegister(nome: string, email: string, senha: string)

  /** How many times a trace calls `register`. */
  function RegisterCalls(trace: seq<FormStep>): nat
  {
    if trace == [] then 0
    else RegisterCalls(trace[..|trace| - 1]) + (if trace[|trace| - 1].CallRegister? then 1 else 0)
  }

  /** Appending one step adds one call exactly when that step is a call. */
  lemma RegisterCallsSnoc(trace: seq<FormStep>, step: FormStep)
    ensures RegisterCalls(trace + [step]) == RegisterCalls(trace) + (if step.CallRegister? then 1 else 0)
  {
    assert (trace + [step])[..|trace|] == trace;
  }

  /** The form component's fields and state. */
  class RegisterFormState {
    var nome: string
    var email: string
    var senha: string
    var confirmSenha: string
    var isLoading: bool
    var passwordError: string
    var trace: seq<FormStep>

    constructor ()
      ensures nome == email == senha == confirmSenha == passwordError == ""
      ensures !isLoading && trace == []
    {
      nome, email, senha, confirmSenha := "", "", "", "";
      isLoading := false;
      passwordError := "";
      trace := [];
    }

    /**
     * `handleSubmit`. The error is cleared first; an invalid pair sets its
     * error and stops; a valid one calls `register` exactly once, with loading
     * set before and cleared after whatever the call does. Returns whether the
     * call threw (the rejection leaves the handler).
     */
    method HandleSubmit(outcome: CallOutcome) returns (threw: bool)
      modifies this`isLoading, this`passwordError, this`trace
      ensures passwordError == PasswordError(senha, confirmSenha)
      ensures !Valid(senha, confirmSenha) ==>
        && trace == old(trace) + [SetPasswordError(""), SetPasswordError(passwordError)]
        && isLoading == old(isLoading) && !threw
      ensures Valid(senha, confirmSenha) ==>
        && trace == old(trace) + [SetPasswordError(""), SetIsLoading(true), CallRegister(nome, email, senha), SetIsLoading(false)]
        && !isLoading && threw == outcome.Rejected?
      ensures RegisterCalls(trace) == RegisterCalls(old(trace)) + (if Valid(senha, confirmSenha) then 1 else 0)
    {
      passwordError := "";
      trace := trace + [SetPasswordError("")];
      if senha != confirmSenha {
        passwordError := MISMATCH_ERROR;
        trace := trace + [SetPasswordError(passwordError)];
        assert RegisterCalls(trace) == RegisterCalls(old(trace)) by {
          RegisterCallsSnoc(old(trace), SetPasswordError(""));
          RegisterCallsSnoc(old(trace) + [SetPasswordError("")], SetPasswordError(passwordError));
          assert trace == old(trace) + [SetPasswordError("")] + [SetPasswordError(passwordError)];
        }
        return false;
      }
      if |senha| < MIN_SENHA_LENGTH {
        passwordError := TOO_SHORT_ERROR;
        trace := trace + [SetPasswordError(passwordError)];
        assert RegisterCalls(trace) == RegisterCalls(old(trace)) by {
          RegisterCallsSnoc(old(trace), SetPasswordError(""));
          RegisterCallsSnoc(old(trace) + [SetPasswordError("")], SetPasswordError(passwordError));
          assert trace == old(trace) + [SetPasswordError("")] + [SetPasswordError(passwordError)];
        }
        return false;
      }
      isLoading := true;
      trace := trace + [SetIsLoading(true)];
      trace := trace + [CallRegister(nome, email, senha)];
      threw := outcome.Rejected?;
      isLoading := false;
      trace := trace + [SetIsLoading(false)];
      assert RegisterCalls(trace) == RegisterCalls(old(trace)) + 1 by {
        var t0 := old(trace);
        RegisterCallsSnoc(t0, SetPasswordError(""));
        RegisterCallsSnoc(t0 + [SetPasswordError("")], SetIsLoading(true));
        RegisterCallsSnoc(t0 + [SetPasswordError("")] + [SetIsLoading(true)], CallRegister(nome, email, senha));
        RegisterCallsSnoc(t0 + [SetPasswordError("")] + [SetIsLoading(true)] + [CallRegister(nome, email, senha)], SetIsLoading(false));
        assert trace == t0 + [SetPasswordError("")] + [SetIsLoading(true)] + [CallRegister(nome, email, senha)] + [SetIsLoading(false)];
      }
    }
  }
}
