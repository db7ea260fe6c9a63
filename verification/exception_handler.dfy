/**
 * `GlobalExceptionHandler`: how an exception that escapes a controller
 * becomes an HTTP status and a JSON object. Spring picks the handler of the
 * closest exception superclass, so the two security exceptions and the
 * validation failure have their own handlers, every other unchecked
 * exception gets the `RuntimeException` one and a checked exception falls
 * through to the `Exception` one.
 */
module ExceptionHandler {
  import opened Wrappers
  import opened Exceptions

  const BadCredentialsMessage: string := "이메일 또는 비밀번호가 잘못 입력되었습니다."
  const UnexpectedMessage: string := "예상하지 못한 오류가 발생하였습니다."

  /** The response body: a field-to-message object, or `{"error": message}`
      where a null message is written as JSON null. */
  datatype Body = FieldMessages(fields: map<string, string>) | ErrorMessage(error: Message)

  datatype Response = Response(status: nat, body: Body)

  /** The `HashMap` built by `forEach ... put`: one entry per rejected
      field; the last error in the list sets its field's message. */
  function FieldMap(errors: seq<FieldError>): (m: map<string, string>)
    ensures m.Keys == set e | e in errors :: e.field
    ensures |errors| > 0 ==> m[errors[|errors| - 1].field] == errors[|errors| - 1].message
  {
    if |errors| == 0 then map[]
    else
      var last := |errors| - 1;
      assert errors == errors[..last] + [errors[last]];
      FieldMap(errors[..last])[errors[last].field := errors[last].message]
  }

  /** Each field reports the message of its LAST error. */
  lemma {:induction false} FieldMapLastWins(errors: seq<FieldError>, i: nat)
    requires i < |errors|
    requires forall j :: i < j < |errors| ==> errors[j].field != errors[i].field
    ensures errors[i].field in FieldMap(errors) && FieldMap(errors)[errors[i].field] == errors[i].message
  {
    var last := |errors| - 1;
    if i < last {
      var front := errors[..last];
      assert forall j :: i < j < |front| ==> front[j] == errors[j];
      FieldMapLastWins(front, i);
      assert front[i] == errors[i];
    }
  }

  /** Exception to response. */
  function Handle(e: Exc): (r: Response)
    ensures r.status == 400 <==> e.MethodArgumentNotValid? || e.Runtime? || e.OAuth2Failure?
    ensures r.status == 401 <==> e.BadCredentials?
    ensures r.status == 404 <==> e.UsernameNotFound?
    ensures r.status == 500 <==> e.Checked?
    ensures r.body.FieldMessages? <==> e.MethodArgumentNotValid?
    ensures e.Runtime? ==> r.body == ErrorMessage(e.message)
    ensures e.UsernameNotFound? ==> r.body == ErrorMessage(Literal(e.text))
    ensures r.body == ErrorMessage(NoMessage) <==> e.OAuth2Failure? || (e.Runtime? && e.message == NoMessage)
  {
    match e
    case MethodArgumentNotValid(errors) => Response(400, FieldMessages(FieldMap(errors)))
    case BadCredentials => Response(401, ErrorMessage(Literal(BadCredentialsMessage)))
    case UsernameNotFound(text) => Response(404, ErrorMessage(Literal(text)))
    case OAuth2Failure(_) => Response(400, ErrorMessage(NoMessage))
    case Runtime(_, message) => Response(400, ErrorMessage(message))
    case Checked(_) => Response(500, ErrorMessage(Literal(UnexpectedMessage)))
  }

  /** A 401 or a 500 reveals nothing about the exception behind it: any two
      exceptions answered with the same one of these statuses get the same
      response. */
  lemma OpaqueStatuses(e1: Exc, e2: Exc)
    requires Handle(e1).status == Handle(e2).status
    requires Handle(e1).status == 401 || Handle(e1).status == 500
    ensures Handle(e1) == Handle(e2)
  {
  }

  /** A field rejected twice in a row reports only its later message; the
      earlier one leaves no trace in the object. */
  lemma {:induction false} LastErrorWins(errors: seq<FieldError>, f: string, first: string, second: string)
    ensures FieldMap(errors + [FieldError(f, first), FieldError(f, second)])[f] == second
    ensures FieldMap(errors + [FieldError(f, first), FieldError(f, second)])
         == FieldMap(errors + [FieldError(f, second)])
  {
    var a := errors + [FieldError(f, first), FieldError(f, second)];
    var b := errors + [FieldError(f, second)];
    assert a[..|a| - 1] == errors + [FieldError(f, first)];
    assert (errors + [FieldError(f, first)])[..|errors|] == errors;
    assert b[..|b| - 1] == errors;
  }
}
