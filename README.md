# Contact-form validation of the restaurant site script

This project models the contact form handled by `script.js`: the submit handler
`manejarEnvioFormulario`, which checks the name, the e-mail and the message
against seven rules in a fixed order, and `mostrarNotificacion`, which shows the
result in the form's help text. The handler reports the first rule that fails
with a Spanish error message, re-enables the submit button and returns. Only
when every rule passes does it clear the help text and post the form.

The repository's Python programs under `Proyecto(pedido, boleta y menu)/`
implement a restaurant point-of-sale tool (stock, orders, receipts). None of that
logic is in `script.js`, and those programs are not part of this model.

Modules:

- `JsText` (`jstext.dfy`) holds the JavaScript string primitives the rules use.
  `IsWs` is the white-space set shared by `trim()` and the regular-expression
  class `\s`. `Trim` models `trim()`. `Utf16Length` models `.length`, which counts
  UTF-16 code units, so a character above U+FFFF counts twice.
- `ContactRules` (`contactrules.dfy`) holds the rules as values. `Fails` is one
  rule taken alone. `Validate` is the handler's chain. `FirstFailing` walks the
  rule list `Order()` as an independent reference. The lemmas state which message
  wins and what an accepted submission satisfies.
- `ContactPage` (`contactpage.dfy`) holds the handler as imperative code. The
  submit button and the help-text element are objects whose fields the methods
  update in place. `ContactForm.HandleSubmit` runs the checks step by step, with
  early returns as the script does, and is proved against `Validate`.

`email.checkValidity()` is the browser's own check. Its definition is not
visible, so its verdict is the `emailValid` input of the model.

## Model

| member | source | states |
|---|---|---|
| `JsText.TrimStartSpec` | script.js:97 | The result is a suffix of the input that does not start with white space, and everything cut off is white space. |
| `JsText.TrimEndSpec` | script.js:97 | The result is a prefix of the input that does not end with white space, and everything cut off is white space. |
| `JsText.TrimIsStrippedInfix` | script.js:97 | `trim()` returns a contiguous infix that neither starts nor ends with white space, and only white space lies on either side of it. |
| `JsText.TrimEmptyIffAllWs` | script.js:97 | `s.trim() === ''` holds exactly when every character of `s` is white space. This is the blank test of lines 97, 118 and 133. |
| `JsText.CodeUnits` | script.js:103 | A character takes one or two UTF-16 code units. It takes two exactly when it lies above U+FFFF. |
| `JsText.Utf16LengthBounds` | script.js:139 | `.length` lies between the number of characters and twice that number. |
| `JsText.Utf16LengthOfBmp` | script.js:103 | For a string of Basic Multilingual Plane characters, `.length` is its number of characters. |
| `ContactRules.Order` | script.js:96-144 | The seven rules in checking order: name required, name length, name pattern, e-mail required, e-mail format, message required, message length. |
| `ContactRules.Validate` | script.js:97-144 | An accepted submission fails no rule. A rejection names a rule that fails, and every rule before it passes. |
| `ContactRules.FirstFailing` | script.js:97-144 | Walking a rule list gives acceptance exactly when no listed rule fails. Otherwise it gives a listed rule that fails, with every earlier rule passing. |
| `ContactRules.ValidateIsFirstFailing` | script.js:97-144 | The handler's if-chain equals the first-failing walk over `Order()`. |
| `ContactRules.FirstFailureWins` | script.js:97-144 | A failing rule before which every rule passes is the one reported. This is the converse of `Validate`'s contract. |
| `ContactRules.MessagesDistinct` | script.js:98-140 | The seven error messages are pairwise different, so the text shown identifies the rule. |
| `ContactRules.BlankNameMasksAll` | script.js:97-102 | An empty or all-white-space name is rejected with 'El campo Nombre es obligatorio.', whatever the other fields hold. |
| `ContactRules.ShortNameRejected` | script.js:103-108 | A non-blank name whose raw `.length` is below 2 is rejected with the name-length message. |
| `ContactRules.PaddedNamePassesLength` | script.js:97-115 | " a" passes all three name rules because the length is taken before trimming. With a blank e-mail it is then rejected on the e-mail. |
| `ContactRules.AstralNameCaughtByPattern` | script.js:103-115 | A single character above U+FFFF has `.length` 2. It passes the length rule and is rejected by the name pattern. |
| `ContactRules.NonBlankNameHasLetter` | script.js:109-110 | A non-blank string that matches the name pattern contains a letter from the pattern's letter class. |
| `ContactRules.BmpName` | script.js:109 | A string that matches the name pattern has `.length` equal to its number of characters. |
| `ContactRules.AcceptedNameHasLetter` | script.js:97-115 | Every accepted name has at least 2 characters and contains at least one letter. |
| `ContactRules.EmailRules` | script.js:118-130 | Once the name passes, a blank e-mail is rejected as missing. Otherwise the format message is reported exactly when the browser's validity verdict is false. |
| `ContactRules.AcceptedMessageShape` | script.js:133-144 | Every accepted message has `.length` of at least 10 (so at least 5 characters) and a character that is not white space. |
| `ContactRules.NameErrorMasksLaterFields` | script.js:97-130 | When a name rule fails, the outcome depends on the name alone. The e-mail and message are never consulted. |
| `ContactPage.NotificationColor` | script.js:177 | The colour is '#a7f3d0' exactly when the kind is 'success', and '#ff8a8a' exactly when it is not. |
| `ContactPage.ShowNotification` | script.js:174-178 | The element's text becomes exactly the message, and its colour becomes the kind's colour. |
| `ContactPage.ContactForm.Refuse` | script.js:98-101 | A failing branch shows the rule's message in the error colour and leaves the button enabled with text 'Enviar'. |
| `ContactPage.ContactForm.HandleSubmit` | script.js:83-151 | The form is submitted exactly when `Validate` accepts. A rejection shows the first failing rule's message in red, with the button enabled and reading 'Enviar'. An acceptance clears the help text as a success and leaves the button disabled, reading 'Enviando...'. |
| `ContactPage.BlankNameScenario` | script.js:97-102 | A client of the handler: a name of three spaces is refused with 'El campo Nombre es obligatorio.', and the button ends enabled with text 'Enviar', whatever the message holds. |

## Left out

- The form post (script.js:150-168) is left out. It is network I/O: the `fetch`, the server's reply shown as a notification, `formulario.reset()`, the connection-error message and the `finally` block. As a result, after an accepted submission the model leaves the button disabled with text 'Enviando...'. In the script, `finally` later restores it.
- The inner workings of `email.checkValidity()` are left out. It is a browser-defined check, so the model takes its boolean verdict as an input.
- `evento.preventDefault()` and the console logging are left out. They do not change the validation outcome or the page state modelled here.
- The DOM lookups by `querySelector` (script.js:83 and 87-90) are left out. The model assumes the submit button, the three fields and `#form-help` all exist. If one is missing, the script throws a TypeError, and the model does not capture that. For example, a missing `#form-help` throws inside `mostrarNotificacion` (script.js:176) before lines 99-100 run, so the button stays disabled with 'Enviando...'.
- News loading (`cargarNoticias`, script.js:32-74) and the dynamic ranking (`inicializarRankingDinamico`, script.js:183-214) are left out. Both are network fetches rendered into the page.
- `mostrarDetalleInnovacion` and the visual effects (intersection observer, pointer tracking, `cambiarTema`) are left out. They are display-only.
- Lone UTF-16 surrogates are left out. A JavaScript string can hold them, but a Dafny `char` cannot. Strings are therefore sequences of Unicode scalar values, with `.length` counted in UTF-16 code units.
- The message-length bound of 10 is in UTF-16 code units, because that is what `.length` counts. It is not a bound of 10 characters: a message of five characters above U+FFFF is accepted.
