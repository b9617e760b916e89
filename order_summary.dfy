/**
 * The order summary panel of the point-of-sale page, a pure view of the
 * page state: the code field and its "Ver" button, one row per cart entry,
 * the status message coloured by whether it reads as an error, and the
 * button that submits the cart.
 */
module OrderSummaryView {
  import opened Wrappers
  import opened Http
  import opened Text
  import opened Domain
  import opened PointOfSale
  import opened Notices

  /** What the panel shows for one page state. */
  datatype Summary = Summary(
    codeInputEnabled: bool,
    checkEnabled: bool,
    rows: seq<string>,
    showsEmptyPlaceholder: bool,
    message: Option<(string, MessageStyle)>,
    finalizeEnabled: bool)

  function Render(s: PageState): Summary {
    Summary(
      !s.isSubmitting,
      s.sessionId != "" && !s.isLoadingConsumption,
      seq(|s.currentOrder|, i requires 0 <= i < |s.currentOrder| => s.currentOrder[i].name),
      |s.currentOrder| == 0,
      if s.submitMessage != "" then Some((s.submitMessage, StyleOf(s.submitMessage))) else None,
      s.sessionId != "" && |s.currentOrder| > 0 && !s.isSubmitting)
  }

  /** One row per cart entry, in cart order, and the placeholder only for an
      empty cart. */
  lemma RowsFollowCart(s: PageState)
    ensures |Render(s).rows| == |s.currentOrder|
    ensures forall i | 0 <= i < |s.currentOrder| :: Render(s).rows[i] == s.currentOrder[i].name
    ensures Render(s).showsEmptyPlaceholder <==> Render(s).rows == []
  {
  }

  /** Adding `k` units of a product adds `k` rows with its name after the old ones. */
  lemma AddingAddsRows(s: PageState, p: Product, k: nat)
    ensures var t := s.(submitMessage := "", currentOrder := s.currentOrder + Repeat(p, k), selectedProduct := None);
      && Render(t).rows[..|s.currentOrder|] == Render(s).rows
      && |Render(t).rows| == |Render(s).rows| + k
      && (forall i | |s.currentOrder| <= i < |Render(t).rows| :: Render(t).rows[i] == p.name)
      && Render(t).message == None
  {
  }

  /** The submit button is enabled exactly when the handler would send a
      request and no submission is under way. */
  lemma FinalizeEnabledIff(s: PageState)
    ensures Render(s).finalizeEnabled <==> SendsOrder(s) && !s.isSubmitting
  {
  }

  /** The "Ver" button is enabled exactly when the lookup handler would send
      a request and no lookup is under way. */
  lemma CheckEnabledIff(s: PageState)
    ensures Render(s).checkEnabled <==> SendsLookup(s) && !s.isLoadingConsumption
  {
  }

  /** The panel as the page renders it: the page hands its code over under
      the prop name `sessionId`, the panel reads `wristbandCode`, so the
      panel's code is undefined, which is falsy like "". */
  function RenderAsWritten(s: PageState): Summary {
    Render(s.(sessionId := ""))
  }

  /** With the props as written, neither button is ever enabled, whatever
      the page holds. */
  lemma AsWrittenButtonsNeverEnabled(s: PageState)
    ensures !RenderAsWritten(s).finalizeEnabled && !RenderAsWritten(s).checkEnabled
  {
  }

  /** Once the submit handler has sent its request, the button and the code
      field are disabled until the outcome is in. */
  lemma SubmittingDisablesSubmit(s: PageState)
    ensures var t := s.(isSubmitting := true, submitMessage := SubmittingMessage);
      !Render(t).finalizeEnabled && !Render(t).codeInputEnabled
  {
  }

  /** Every failure message of the submit handler is coloured as an error. */
  lemma SubmitFailureStyled(e: HttpError)
    ensures StyleOf(SubmitFailureMessage(e)) == ErrorStyle
  {
    var detail := OrElse(OrElse(e.responseError, e.message), SubmitFallback);
    assert SubmitFailureMessage(e) == "Erro" + (": " + detail);
    ErrorPrefixStyled(": " + detail);
  }

  /** The progress and success messages of the submit handler are not. */
  lemma SubmitProgressStyled()
    ensures StyleOf(SubmittingMessage) == SuccessStyle
  {
    WithoutCapitalEStyled(SubmittingMessage);
  }

  lemma SubmitSuccessStyled()
    ensures StyleOf(SubmittedMessage) == SuccessStyle
  {
    WithoutCapitalEStyled(SubmittedMessage);
  }
}
