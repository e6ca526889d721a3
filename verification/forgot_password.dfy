/** The three-step password-reset dialog
    (src/components/ForgotPasswordModal.tsx): ask for the email, send a
    code to it, verify the code, then set the new password for the email
    recorded at the first step. Each form is checked against its schema
    before its handler runs; the remote calls are replaced by outcomes. */
module ForgotPassword {
  import opened Wrappers
  import Validation

  datatype Step = EmailStep | CodeStep | PasswordStep

  datatype Modal = Modal(step: Step, email: string, isLoading: bool)

  /** The dialog as opened, and as left by closing it. */
  const Initial := Modal(EmailStep, "", false)

  /** The remote call a handler makes. */
  datatype Call = SendCall(email: string) | VerifyCall(code: string) | ResetCall(email: string, newPassword: string)

  datatype Handled = Handled(call: Call, modal: Modal)

  /** `handleSendCode(data)`: on success the email is recorded and the
      dialog moves to the code step; on failure only loading changes. */
  function HandleSendCode(m: Modal, email: string, reply: Outcome<()>): (r: Handled)
    ensures r.call == SendCall(email) && !r.modal.isLoading
    ensures reply.Ok? ==> r.modal.step == CodeStep && r.modal.email == email
    ensures reply.Err? ==> r.modal == m.(isLoading := false)
  {
    match reply
    case Ok(_) => Handled(SendCall(email), Modal(CodeStep, email, false))
    case Err(_) => Handled(SendCall(email), m.(isLoading := false))
  }

  /** `handleVerifyCode(data)`: on success the dialog moves to the password
      step; the recorded email is kept. */
  function HandleVerifyCode(m: Modal, code: string, reply: Outcome<()>): (r: Handled)
    ensures r.call == VerifyCall(code) && !r.modal.isLoading && r.modal.email == m.email
    ensures reply.Ok? ==> r.modal.step == PasswordStep
    ensures reply.Err? ==> r.modal.step == m.step
  {
    Handled(VerifyCall(code), m.(step := if reply.Ok? then PasswordStep else m.step, isLoading := false))
  }

  /** `handleClose()`: back to the email step with nothing recorded. The
      loading flag is not touched. */
  function HandleClose(m: Modal): (r: Modal)
    ensures r.step == EmailStep && r.email == "" && r.isLoading == m.isLoading
  {
    m.(step := EmailStep, email := "")
  }

  /** `handleResetPassword(data)`: the reset is sent for the email recorded
      at the first step; success closes the flow, failure keeps it. */
  function HandleResetPassword(m: Modal, newPassword: string, reply: Outcome<()>): (r: Handled)
    ensures r.call == ResetCall(m.email, newPassword) && !r.modal.isLoading
    ensures reply.Ok? ==> r.modal == Initial
    ensures reply.Err? ==> r.modal == m.(isLoading := false)
  {
    var loading := m.(isLoading := true);
    match reply
    case Ok(_) => Handled(ResetCall(m.email, newPassword), HandleClose(loading).(isLoading := false))
    case Err(_) => Handled(ResetCall(m.email, newPassword), m.(isLoading := false))
  }

  /** The "Back" button of the code step. */
  function Back(m: Modal): (r: Modal)
    ensures r.step == EmailStep && r.email == m.email && r.isLoading == m.isLoading
  {
    m.(step := EmailStep)
  }

  // ---- Submitting the visible form ----

  /** Submitting the email form, which is on screen only at the email
      step: the handler runs only for a valid email. */
  function SubmitEmail(m: Modal, email: string, isEmail: string -> bool, reply: Outcome<()>): (r: Option<Handled>)
    ensures r.Some? <==> m.step == EmailStep && isEmail(email)
    ensures r.Some? ==> r.value == HandleSendCode(m, email, reply)
  {
    if m.step == EmailStep && Validation.EmailIssues(email, isEmail) == [] then
      Some(HandleSendCode(m, email, reply))
    else None
  }

  /** Submitting the code form, which is on screen only at the code step:
      the handler runs only for six digits. */
  function SubmitCode(m: Modal, code: string, reply: Outcome<()>): (r: Option<Handled>)
    ensures r.Some? <==> m.step == CodeStep && Validation.ResetCode(code)
    ensures r.Some? ==> r.value == HandleVerifyCode(m, code, reply)
  {
    if m.step == CodeStep && Validation.ResetCodeIssues(code) == [] then
      Some(HandleVerifyCode(m, code, reply))
    else None
  }

  /** Submitting the password form, which is on screen only at the
      password step: the handler runs only for a strong password typed
      twice. */
  function SubmitPassword(m: Modal, f: Validation.NewPasswordForm, reply: Outcome<()>): (r: Option<Handled>)
    ensures r.Some? <==> m.step == PasswordStep && Validation.StrongPassword(f.newPassword)
                         && f.confirmPassword == f.newPassword
    ensures r.Some? ==> r.value == HandleResetPassword(m, f.newPassword, reply)
  {
    Validation.NewPasswordAccepted(f);
    if m.step == PasswordStep && Validation.NewPasswordIssues(f) == [] then
      Some(HandleResetPassword(m, f.newPassword, reply))
    else None
  }

  /** Past the first step the recorded email is one the email rule accepts. */
  predicate Recorded(m: Modal, isEmail: string -> bool) {
    m.step != EmailStep ==> isEmail(m.email)
  }

  /** Every submission, every close and "Back" keeps the recorded email
      valid past the first step, so a reset is only ever sent for an email
      the user entered and the server accepted a code for. */
  lemma SubmissionsKeepRecorded(m: Modal, isEmail: string -> bool, email: string, code: string,
                                f: Validation.NewPasswordForm, reply: Outcome<()>)
    requires Recorded(m, isEmail)
    ensures SubmitEmail(m, email, isEmail, reply).Some? ==>
      Recorded(SubmitEmail(m, email, isEmail, reply).value.modal, isEmail)
    ensures SubmitCode(m, code, reply).Some? ==> Recorded(SubmitCode(m, code, reply).value.modal, isEmail)
    ensures SubmitPassword(m, f, reply).Some? ==> Recorded(SubmitPassword(m, f, reply).value.modal, isEmail)
    ensures Recorded(HandleClose(m), isEmail) && Recorded(Back(m), isEmail)
  {
  }

  /** A failed call never moves the dialog to another step. */
  lemma FailureKeepsStep(m: Modal, email: string, code: string, newPassword: string, message: string)
    ensures HandleSendCode(m, email, Err(message)).modal.step == m.step
    ensures HandleVerifyCode(m, code, Err(message)).modal.step == m.step
    ensures HandleResetPassword(m, newPassword, Err(message)).modal.step == m.step
  {
  }

  /** The whole flow: from the opened dialog, a sent code, a verified code
      and a successful reset send the reset for the email of the first
      step and leave the dialog as it was opened. */
  lemma HappyPath(email: string, code: string, newPassword: string)
    ensures
      var one := HandleSendCode(Initial, email, Ok(())).modal;
      var two := HandleVerifyCode(one, code, Ok(())).modal;
      var three := HandleResetPassword(two, newPassword, Ok(()));
      && one.step == CodeStep && two.step == PasswordStep
      && three.call == ResetCall(email, newPassword)
      && three.modal == Initial
  {
  }

  /** Going back from the code step and sending to another address
      replaces the recorded email: the reset then goes to the new one. */
  lemma BackThenResend(m: Modal, other: string, code: string, newPassword: string)
    requires m.step == CodeStep
    ensures
      var resent := HandleSendCode(Back(m), other, Ok(())).modal;
      var verified := HandleVerifyCode(resent, code, Ok(())).modal;
      HandleResetPassword(verified, newPassword, Ok(())).call == ResetCall(other, newPassword)
  {
  }
}
