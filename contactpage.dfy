/** The contact form's submit handler and the notification helper it uses: the
    page state they change (the submit button and the help-text element) is
    modelled as objects whose fields the methods update in place. */
module ContactPage {
  import opened JsText
  import opened ContactRules

  const SuccessColor: string := "#a7f3d0"
  const ErrorColor: string := "#ff8a8a"

  /** The text colour a notification of the given kind is shown in: green for
      "success", red for every other kind. */
  function NotificationColor(kind: string): (color: string)
    ensures color == SuccessColor <==> kind == "success"
    ensures color == ErrorColor <==> kind != "success"
  {
    if kind == "success" then SuccessColor else ErrorColor
  }

  /** The `#form-help` element: its text content and its style colour. */
  class HelpText {
    var text: string
    var color: string

    constructor ()
      ensures text == "" && color == ""
    {
      text, color := "", "";
    }
  }

  /** The form's submit button: whether it is disabled and its text. */
  class SubmitButton {
    var disabled: bool
    var text: string

    constructor (text: string)
      ensures !disabled && this.text == text
    {
      disabled, this.text := false, text;
    }
  }

  /** `mostrarNotificacion`: show `message` in `element`, coloured by `kind`. */
  method ShowNotification(element: HelpText, message: string, kind: string)
    modifies element
    ensures element.text == message
    ensures element.color == NotificationColor(kind)
  {
    element.text := message;
    element.color := NotificationColor(kind);
  }

  /** The contact form: the current values of its three fields and the two
      elements the submit handler updates. */
  class ContactForm {
    var nombre: string
    var email: string
    var mensaje: string
    const submitButton: SubmitButton
    const helpText: HelpText

    constructor (submitButton: SubmitButton, helpText: HelpText)
      ensures nombre == "" && email == "" && mensaje == ""
      ensures this.submitButton == submitButton && this.helpText == helpText
    {
      nombre, email, mensaje := "", "", "";
      this.submitButton, this.helpText := submitButton, helpText;
    }

    /** What the handler validates, given the browser's verdict on the e-mail
        input. */
    function Entered(emailValid: bool): (x: Submission)
      reads this
      ensures x.nombre == nombre && x.email == email && x.mensaje == mensaje
      ensures x.emailValid == emailValid
    {
      Submission(nombre, email, emailValid, mensaje)
    }

    /** One failing branch of the handler: show the rule's message as an error
        and re-enable the button. */
    method Refuse(rule: Rule)
      modifies submitButton, helpText
      ensures helpText.text == Message(rule) && helpText.color == ErrorColor
      ensures !submitButton.disabled && submitButton.text == "Enviar"
    {
      ShowNotification(helpText, Message(rule), "error");
      submitButton.disabled := false;
      submitButton.text := "Enviar";
    }

    /** `manejarEnvioFormulario` up to the point where it posts the form. The
        button is disabled and relabelled first; then the rules run in order and
        the first that fails is reported as an error, the button enabled again
        and nothing submitted. When every rule passes, the help text is cleared
        as a success and the form is submitted (`submitted`), the button still
        disabled while the post is in flight. */
    method HandleSubmit(emailValid: bool) returns (submitted: bool)
      modifies submitButton, helpText
      ensures submitted <==> Validate(Entered(emailValid)) == Accepted
      ensures !submitted ==>
        helpText.text == Message(Validate(Entered(emailValid)).rule) && helpText.color == ErrorColor &&
        !submitButton.disabled && submitButton.text == "Enviar"
      ensures submitted ==>
        helpText.text == "" && helpText.color == SuccessColor &&
        submitButton.disabled && submitButton.text == "Enviando..."
    {
      submitButton.disabled := true;
      submitButton.text := "Enviando...";

      if Trim(nombre) == [] {
        Refuse(NameRequired);
        return false;
      }
      if Utf16Length(nombre) < 2 {
        Refuse(NameTooShort);
        return false;
      }
      if !MatchesNamePattern(nombre) {
        Refuse(NameChars);
        return false;
      }

      if Trim(email) == [] {
        Refuse(EmailRequired);
        return false;
      }
      if !emailValid {
        Refuse(EmailFormat);
        return false;
      }

      if Trim(mensaje) == [] {
        Refuse(MessageRequired);
        return false;
      }
      if Utf16Length(mensaje) < 10 {
        Refuse(MessageTooShort);
        return false;
      }

      ShowNotification(helpText, "", "success");
      submitted := true;
    }
  }

  /** A client of the handler: a blank name is refused with its message and
      the button is usable again, whatever was typed in the message field. */
  method BlankNameScenario(mensaje: string) returns (shown: string, enabled: bool, buttonText: string)
    ensures shown == "El campo Nombre es obligatorio."
    ensures enabled && buttonText == "Enviar"
  {
    var button := new SubmitButton("Enviar");
    var help := new HelpText();
    var form := new ContactForm(button, help);
    form.nombre, form.email, form.mensaje := "   ", "tu@correo.com", mensaje;
    var submitted := form.HandleSubmit(true);
    assert Trim("   ") == [] by { TrimEmptyIffAllWs("   "); }
    shown, enabled, buttonText := help.text, !button.disabled, button.text;
  }
}
