/** The contact section's form on the client: the five field values, the
    submission status (idle, sending, success, error) and the "copied"
    flag of the copy-address button. Asynchronous completions and timers
    are separate steps that the environment calls in its own order. */
module ContactForm {

  datatype Status = Idle | Sending | Success | Error

  /** The `name` attributes of the form's inputs. */
  datatype Field = Name | Company | Email | Phone | Message

  datatype FormData = FormData(name: string, company: string, email: string, phone: string, message: string) {

    function Get(field: Field): string {
      match field
      case Name => name
      case Company => company
      case Email => email
      case Phone => phone
      case Message => message
    }

    /** `{...formData, [field]: value}` */
    function With(field: Field, value: string): (d: FormData)
      ensures d.Get(field) == value
      ensures forall other :: other != field ==> d.Get(other) == Get(other)
    {
      match field
      case Name => this.(name := value)
      case Company => this.(company := value)
      case Email => this.(email := value)
      case Phone => this.(phone := value)
      case Message => this.(message := value)
    }
  }

  const EmptyForm := FormData("", "", "", "", "")

  /** How the `fetch` to `/api/send` ends. */
  datatype SubmitResult = ResponseOk | ResponseNotOk | RequestFailed

  /** `getButtonText`: the translation key of the submit button's label. */
  function ButtonLabel(status: Status): (key: string)
    ensures key == "form.submit" <==> status == Idle
    ensures key == "form.sending" <==> status == Sending
    ensures key == "form.success" <==> status == Success
    ensures key == "form.error" <==> status == Error
  {
    match status
    case Sending => "form.sending"
    case Success => "form.success"
    case Error => "form.error"
    case _ => "form.submit"
  }

  /** The submit button's `disabled` attribute: set exactly while the
      button reads "form.sending". */
  function SubmitDisabled(status: Status): (disabled: bool)
    ensures disabled <==> ButtonLabel(status) == "form.sending"
  {
    status == Sending
  }

  /** Each status has its own label, so the label tells the status. */
  lemma LabelsDistinct(s: Status, t: Status)
    requires ButtonLabel(s) == ButtonLabel(t)
    ensures s == t
  {
  }

  /** Updating one field and reading another gives the old value; writing a
      field twice keeps the last write; writing back what is there changes nothing. */
  lemma WithLaws(d: FormData, f: Field, g: Field, v: string, w: string)
    ensures f != g ==> d.With(f, v).Get(g) == d.Get(g)
    ensures d.With(f, v).With(f, w) == d.With(f, w)
    ensures d.With(f, d.Get(f)) == d
  {
  }

  class Contact {
    var formData: FormData
    var formStatus: Status
    var emailCopied: bool

    constructor ()
      ensures formData == EmptyForm && formStatus == Idle && !emailCopied
    {
      formData := EmptyForm;
      formStatus := Idle;
      emailCopied := false;
    }

    /** `handleChange`: only the field named by the event changes. */
    method HandleChange(field: Field, value: string)
      modifies this
      ensures formData == old(formData).With(field, value)
      ensures formData.Get(field) == value
      ensures forall other :: other != field ==> formData.Get(other) == old(formData).Get(other)
      ensures formStatus == old(formStatus) && emailCopied == old(emailCopied)
    {
      formData := formData.With(field, value);
    }

    /** The synchronous part of `handleSubmit`: the status becomes sending
        before the request, whose body is the current form data, goes out. */
    method StartSubmit() returns (request: FormData)
      modifies this
      ensures request == formData == old(formData)
      ensures formStatus == Sending && SubmitDisabled(formStatus)
      ensures emailCopied == old(emailCopied)
    {
      formStatus := Sending;
      request := formData;
    }

    /** The rest of `handleSubmit`, once the request settles: success clears
        every field, a failed response or a thrown error keeps them. */
    method FinishSubmit(result: SubmitResult)
      modifies this
      ensures result == ResponseOk ==> formStatus == Success && formData == EmptyForm
      ensures result != ResponseOk ==> formStatus == Error && formData == old(formData)
      ensures emailCopied == old(emailCopied)
    {
      if result == ResponseOk {
        formStatus := Success;
        formData := EmptyForm;
      } else {
        formStatus := Error;
      }
    }

    /** The three-second timer set by `handleSubmit`: back to idle. */
    method StatusTimerFires()
      modifies this
      ensures formStatus == Idle
      ensures formData == old(formData) && emailCopied == old(emailCopied)
    {
      formStatus := Idle;
    }

    /** `handleCopyEmail`: a successful clipboard write sets the flag; a
        failed one is only logged. */
    method CopyEmail(written: bool)
      modifies this
      ensures emailCopied == (written || old(emailCopied))
      ensures formData == old(formData) && formStatus == old(formStatus)
    {
      if written {
        emailCopied := true;
      }
    }

    /** The two-second timer set by a successful copy. */
    method CopyTimerFires()
      modifies this
      ensures !emailCopied
      ensures formData == old(formData) && formStatus == old(formStatus)
    {
      emailCopied := false;
    }
  }

  /** A full successful round: type the required fields, submit, the server
      answers ok, the timer fires. The request carried the typed values and
      the form ends empty and idle. */
  method SuccessfulSubmission(name: string, email: string, message: string)
    returns (request: FormData, final: FormData, status: Status)
    ensures request == FormData(name, "", email, "", message)
    ensures final == EmptyForm && status == Idle
  {
    var c := new Contact();
    c.HandleChange(Name, name);
    c.HandleChange(Email, email);
    c.HandleChange(Message, message);
    request := c.StartSubmit();
    c.FinishSubmit(ResponseOk);
    assert c.formStatus == Success;
    c.StatusTimerFires();
    final, status := c.formData, c.formStatus;
  }

  /** A failed round keeps what was typed, so the visitor can retry. */
  method FailedSubmission(name: string, email: string, message: string, result: SubmitResult)
    returns (final: FormData, shown: string)
    requires result != ResponseOk
    ensures final == FormData(name, "", email, "", message)
    ensures shown == "form.error"
  {
    var c := new Contact();
    c.HandleChange(Name, name);
    c.HandleChange(Email, email);
    c.HandleChange(Message, message);
    var _ := c.StartSubmit();
    c.FinishSubmit(result);
    final, shown := c.formData, ButtonLabel(c.formStatus);
  }

  /** The timers are not cancelled: after a failed round the visitor can
      resubmit the kept data at once, and the first round's timer can then
      fire while the new request is in flight, which shows the idle label
      and enables the button again. */
  method StaleTimerDuringSend(name: string, email: string, message: string)
    returns (resent: FormData, status: Status, disabled: bool)
    ensures resent == FormData(name, "", email, "", message)
    ensures status == Idle && !disabled
  {
    var c := new Contact();
    c.HandleChange(Name, name);
    c.HandleChange(Email, email);
    c.HandleChange(Message, message);
    var _ := c.StartSubmit();
    c.FinishSubmit(ResponseNotOk);
    resent := c.StartSubmit();
    c.StatusTimerFires();
    status, disabled := c.formStatus, SubmitDisabled(c.formStatus);
  }
}
