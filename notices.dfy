/**
 * The colouring rule the point-of-sale summary and the product form share:
 * a status message is shown in red when it contains "Erro", in green otherwise.
 */
module Notices {
  import opened Text

  datatype MessageStyle = ErrorStyle | SuccessStyle

  /** A message is an error exactly when "Erro" occurs in it. */
  function StyleOf(msg: string): (style: MessageStyle)
    ensures style == ErrorStyle <==> exists i :: OccursAt(msg, "Erro", i)
  {
    ContainsIffOccurs(msg, "Erro");
    if Contains(msg, "Erro") then ErrorStyle else SuccessStyle
  }

  /** A message that starts with "Erro" is red, whatever follows. */
  lemma ErrorPrefixStyled(rest: string)
    ensures StyleOf("Erro" + rest) == ErrorStyle
  {
    ContainsPrefix("Erro", rest, "Erro");
  }

  /** The same rule stated on the message's first four characters. */
  lemma FirstFourErroStyled(msg: string)
    requires |msg| >= 4 && msg[..4] == "Erro"
    ensures StyleOf(msg) == ErrorStyle
  {
    assert msg == "Erro" + msg[4..];
    ErrorPrefixStyled(msg[4..]);
  }

  /** A message without a capital E is green. */
  lemma WithoutCapitalEStyled(msg: string)
    requires 'E' !in msg
    ensures StyleOf(msg) == SuccessStyle
  {
    NotContainsWithoutFirstChar(msg, "Erro");
  }
}
