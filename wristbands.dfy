/**
 * The wristband registration page: a form with the wristband's code and the
 * content of its QR code, both required, sent untrimmed.
 */
module Wristbands {
  import opened Wrappers
  import opened Http
  import opened Text

  const MissingFieldsMessage: string := "Por favor, insira o código e o QR code da pulseira."
  const CreateWristbandFallback: string := "Ocorreu um erro ao criar a pulseira."

  /** The body of the creation request. */
  datatype WristbandRequest = WristbandRequest(code: string, qrCode: string)

  /** `Pulseira "<code>" criada com sucesso!`. */
  function CreatedMessage(code: string): (msg: string)
    ensures |msg| == |code| + 31
    ensures msg[10..10 + |code|] == code
  {
    "Pulseira \"" + code + "\" criada com sucesso!"
  }

  /** The message a failed creation shows: the backend's `message`, else a fixed text. */
  function CreateFailureMessage(e: HttpError): (msg: string)
    ensures msg != ""
    ensures e.responseMessage != "" ==> msg == e.responseMessage
    ensures e.responseMessage == "" ==> msg == CreateWristbandFallback
  {
    OrElse(e.responseMessage, CreateWristbandFallback)
  }

  class WristbandsPage {
    var wristbandCode: string
    var qrCode: string
    var message: string

    constructor()
      ensures wristbandCode == "" && qrCode == "" && message == ""
    {
      wristbandCode, qrCode, message := "", "", "";
    }

    method OnCodeInput(text: string)
      modifies this
      ensures wristbandCode == text && qrCode == old(qrCode) && message == old(message)
    {
      wristbandCode := text;
    }

    method OnQrCodeInput(text: string)
      modifies this
      ensures qrCode == text && wristbandCode == old(wristbandCode) && message == old(message)
    {
      qrCode := text;
    }

    /** `handleCreateWristband` up to the request: the message is cleared;
        a field that is empty or only white space refuses the form with a
        message; otherwise both fields are sent as typed. */
    method CreateWristband() returns (request: Option<WristbandRequest>)
      modifies this
      ensures request.None? <==> IsBlank(old(wristbandCode)) || IsBlank(old(qrCode))
      ensures request.Some? ==> request.value == WristbandRequest(old(wristbandCode), old(qrCode))
      ensures message == if request.None? then MissingFieldsMessage else ""
      ensures wristbandCode == old(wristbandCode) && qrCode == old(qrCode)
    {
      message := "";
      TrimEmptyIffBlank(wristbandCode);
      TrimEmptyIffBlank(qrCode);
      if Trim(wristbandCode) == "" || Trim(qrCode) == "" {
        message := MissingFieldsMessage;
        return None;
      }
      request := Some(WristbandRequest(wristbandCode, qrCode));
    }

    /** `handleCreateWristband` after `request` was posted: a success
        announces the wristband by the code it carried and clears both
        fields; a failure shows the backend's message and keeps them. */
    method CreateWristbandSettled(request: WristbandRequest, outcome: Outcome<()>)
      modifies this
      ensures outcome.Success? ==> message == CreatedMessage(request.code) && wristbandCode == "" && qrCode == ""
      ensures outcome.Failure? ==>
        message == CreateFailureMessage(outcome.error) && wristbandCode == old(wristbandCode) && qrCode == old(qrCode)
    {
      match outcome {
        case Success(_) =>
          message := CreatedMessage(request.code);
          wristbandCode := "";
          qrCode := "";
        case Failure(e) =>
          message := CreateFailureMessage(e);
      }
    }
  }

  /** Padding a code that is not blank keeps it from being blank, so the
      check lets it through and the request carries the padding. */
  lemma PaddedCodeAccepted(code: string)
    requires !IsBlank(code)
    ensures !IsBlank(" " + code + " ")
    ensures Trim(" " + code + " ") != ""
  {
    var padded := " " + code + " ";
    if IsBlank(padded) {
      forall i | 0 <= i < |code| ensures IsWhitespace(code[i]) {
        assert padded[i + 1] == code[i];
      }
    }
    TrimEmptyIffBlank(padded);
  }
}
