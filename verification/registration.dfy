/** src/routes/login/registration.rs: how `register` classifies the outcome
    of a sign-up, and which flash message `registration` shows. */
module Registration {
  import opened Wrappers
  import Http
  import Errors
  import Text

  /** The JSON body of a registration answer. */
  datatype RegisterResponse = RegisterResponse(success: bool, message: string)

  /** A registration answer: status and body. */
  datatype RegisterReply = RegisterReply(status: nat, body: RegisterResponse)

  /** The submitted sign-up form. */
  datatype RegisterRequest = RegisterRequest(email: string, name: string, nickname: string, password: string)

  /** The row `insert_user` is asked to write. */
  datatype InsertCall = InsertCall(email: string, name: string, nickname: string, passwordHash: string)

  const HashFailedMessage := "비밀번호 처리 중 에러 발생"
  const RegisteredMessage := "회원 가입 성공"
  const DuplicateEmailMessage := "이미 사용중인 이메일 있습니다."
  const RegisterFailedMessage := "회원 가입 중 오류 발생했습니다."

  /** `register`, given the password hasher and the insert (which answers
      with the text of its error, if any). Returns the answer and the insert
      that was attempted, if one was. */
  method Register(form: RegisterRequest, hashPassword: string -> Result<string, Errors.ErrorValue>,
                  insertUser: InsertCall -> Result<(), string>)
    returns (reply: RegisterReply, inserted: Option<InsertCall>)
    ensures reply.body.success <==> reply.status == 200
    ensures hashPassword(form.password).Failure? ==>
              reply == RegisterReply(500, RegisterResponse(false, HashFailedMessage)) && inserted.None?
    ensures hashPassword(form.password).Success? ==>
              inserted == Some(InsertCall(form.email, form.name, form.nickname, hashPassword(form.password).value))
    ensures inserted.Some? && insertUser(inserted.value).Success? ==>
              reply == RegisterReply(200, RegisterResponse(true, RegisteredMessage))
    ensures inserted.Some? && insertUser(inserted.value).Failure? ==>
              reply.status == 400 && !reply.body.success
              && (reply.body.message == DuplicateEmailMessage <==> Text.Contains(insertUser(inserted.value).error, "duplicate"))
              && (reply.body.message == RegisterFailedMessage <==> !Text.Contains(insertUser(inserted.value).error, "duplicate"))
  {
    match hashPassword(form.password)
    case Failure(_) =>
      return RegisterReply(Http.InternalServerError, RegisterResponse(false, HashFailedMessage)), None;
    case Success(hash) =>
      var call := InsertCall(form.email, form.name, form.nickname, hash);
      inserted := Some(call);
      match insertUser(call)
      case Success(_) =>
        reply := RegisterReply(Http.Ok, RegisterResponse(true, RegisteredMessage));
      case Failure(text) =>
        var duplicate := Text.FindSubstring(text, "duplicate");
        var message := if duplicate then DuplicateEmailMessage else RegisterFailedMessage;
        reply := RegisterReply(Http.BadRequest, RegisterResponse(false, message));
  }

  /** `registration`: the page shows the content of the last incoming flash
      message, or the empty string when there is none. `rendered` says
      whether the template rendered; a failed render is a 500. */
  method Registration(flash: seq<Http.FlashMessage>, rendered: bool) returns (status: nat, message: string)
    ensures status == 200 <==> rendered
    ensures !rendered ==> status == 500
    ensures |flash| == 0 ==> message == ""
    ensures |flash| > 0 ==> message == flash[|flash| - 1].content
  {
    message := "";
    var i := 0;
    while i < |flash|
      invariant 0 <= i <= |flash|
      invariant i == 0 ==> message == ""
      invariant i > 0 ==> message == flash[i - 1].content
    {
      message := flash[i].content;
      i := i + 1;
    }
    status := if rendered then Http.Ok else Http.InternalServerError;
  }
}
