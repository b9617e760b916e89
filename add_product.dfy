/**
 * The product registration page: a form for a new product (name, price,
 * category required, description optional) and a small form that creates a
 * category on the spot.
 */
module AddProduct {
  import opened Wrappers
  import opened Http
  import opened Text
  import opened Notices

  const RequiredFieldsMessage: string := "Erro: Todos os campos são obrigatórios."
  const AddingMessage: string := "Adicionando produto..."
  const AddedMessage: string := "Produto adicionado com sucesso!"
  const AddFallback: string := "Falha ao adicionar o produto."

  /** "Erro: " followed by the backend's `message`, else the error's own message, else a fixed text. */
  function AddFailureMessage(e: HttpError): (msg: string)
    ensures |msg| > 6 && msg[..6] == "Erro: "
    ensures e.responseMessage != "" ==> msg[6..] == e.responseMessage
    ensures e.responseMessage == "" && e.message != "" ==> msg[6..] == e.message
    ensures e.responseMessage == "" && e.message == "" ==> msg[6..] == AddFallback
  {
    "Erro: " + OrElse(OrElse(e.responseMessage, e.message), AddFallback)
  }

  /** The body of the product request. The price field holds the typed
      text, which the handler passes through `parseFloat` before sending. */
  datatype ProductRequest = ProductRequest(name: string, price: string, categoryId: string, description: string)

  /** The body of the category request. */
  datatype CategoryRequest = CategoryRequest(name: string, isActive: bool)

  /** Every state cell of the page at once. */
  datatype FormState = FormState(
    name: string,
    price: string,
    description: string,
    categoryId: string,
    newCategoryName: string,
    isSubmitting: bool,
    submitMessage: string,
    categoryPending: bool,
    categoryError: Option<string>)

  class AddProductPage {
    var name: string
    var price: string
    var description: string
    var categoryId: string
    var newCategoryName: string
    var isSubmitting: bool
    var submitMessage: string
    var categoryPending: bool
    var categoryError: Option<string>

    function State(): FormState
      reads this
    {
      FormState(name, price, description, categoryId, newCategoryName, isSubmitting, submitMessage,
                categoryPending, categoryError)
    }

    constructor()
      ensures State() == FormState("", "", "", "", "", false, "", false, None)
    {
      name, price, description, categoryId, newCategoryName := "", "", "", "", "";
      isSubmitting, submitMessage := false, "";
      categoryPending, categoryError := false, None;
    }

    /** `handleSubmit` up to the request: an empty name, price or category
        refuses the form with a message; otherwise the page shows it is
        submitting and the request carries the fields as typed. */
    method Submit() returns (request: Option<ProductRequest>)
      modifies this
      ensures old(name) == "" || old(price) == "" || old(categoryId) == "" ==>
        request == None && State() == old(State()).(submitMessage := RequiredFieldsMessage)
      ensures old(name) != "" && old(price) != "" && old(categoryId) != "" ==>
        && request == Some(ProductRequest(old(name), old(price), old(categoryId), old(description)))
        && State() == old(State()).(isSubmitting := true, submitMessage := AddingMessage)
      ensures request.Some? ==> !SubmitEnabled(State())
    {
      if name == "" || price == "" || categoryId == "" {
        submitMessage := RequiredFieldsMessage;
        return None;
      }
      isSubmitting := true;
      submitMessage := AddingMessage;
      request := Some(ProductRequest(name, price, categoryId, description));
    }

    /** `handleSubmit` after the request: a success clears the four fields; a
        failure keeps them and shows an error; either way the form is no
        longer submitting. */
    method SubmitSettled(outcome: Outcome<()>)
      modifies this
      ensures outcome.Success? ==> State() == old(State()).(
        submitMessage := AddedMessage, name := "", price := "", description := "", categoryId := "",
        isSubmitting := false)
      ensures outcome.Failure? ==> State() == old(State()).(
        submitMessage := AddFailureMessage(outcome.error), isSubmitting := false)
      ensures SubmitEnabled(State())
    {
      match outcome {
        case Success(_) =>
          submitMessage := AddedMessage;
          name := "";
          price := "";
          description := "";
          categoryId := "";
        case Failure(e) =>
          submitMessage := AddFailureMessage(e);
      }
      isSubmitting := false;
    }

    /** `handleAddNewCategory`: a name that is not blank is sent as typed,
        as an active category. */
    method AddNewCategory() returns (request: Option<CategoryRequest>)
      modifies this
      ensures request.None? <==> IsBlank(old(newCategoryName))
      ensures request.None? ==> State() == old(State())
      ensures request.Some? ==>
        && request.value == CategoryRequest(old(newCategoryName), true)
        && State() == old(State()).(categoryPending := true, categoryError := None)
    {
      TrimEmptyIffBlank(newCategoryName);
      if Trim(newCategoryName) != "" {
        categoryPending := true;
        categoryError := None;
        request := Some(CategoryRequest(newCategoryName, true));
      } else {
        request := None;
      }
    }

    /** The category mutation settles: a success clears the name field, a
        failure keeps it and shows the error's message under it. */
    method AddCategorySettled(outcome: Outcome<()>)
      modifies this
      ensures outcome.Success? ==> State() == old(State()).(newCategoryName := "", categoryPending := false)
      ensures outcome.Failure? ==> State() == old(State()).(
        categoryPending := false, categoryError := Some(outcome.error.message))
    {
      match outcome {
        case Success(_) =>
          newCategoryName := "";
        case Failure(e) =>
          categoryError := Some(e.message);
      }
      categoryPending := false;
    }
  }

  /** The submit button is disabled while a submission is under way. */
  predicate SubmitEnabled(s: FormState) {
    !s.isSubmitting
  }

  /** The category button is disabled while a category is being created or
      while the name is blank. */
  predicate AddCategoryEnabled(s: FormState) {
    !s.categoryPending && Trim(s.newCategoryName) != ""
  }

  /** The category button is enabled exactly when pressing it would send a
      request and none is under way. */
  lemma AddCategoryEnabledIff(s: FormState)
    ensures AddCategoryEnabled(s) <==> !s.categoryPending && !IsBlank(s.newCategoryName)
  {
    TrimEmptyIffBlank(s.newCategoryName);
  }

  /** The refusal and failure messages are red, the progress and success
      messages green. */
  lemma RefusalMessageStyled()
    ensures StyleOf(RequiredFieldsMessage) == ErrorStyle
  {
    var msg := RequiredFieldsMessage;
    assert msg[0] == 'E' && msg[1] == 'r' && msg[2] == 'r' && msg[3] == 'o';
    assert msg[..4] == "Erro";
    FirstFourErroStyled(msg);
  }

  lemma FailureMessageStyled(e: HttpError)
    ensures StyleOf(AddFailureMessage(e)) == ErrorStyle
  {
    var detail := OrElse(OrElse(e.responseMessage, e.message), AddFallback);
    assert AddFailureMessage(e) == "Erro" + (": " + detail);
    ErrorPrefixStyled(": " + detail);
  }

  lemma AddingMessageStyled()
    ensures StyleOf(AddingMessage) == SuccessStyle
  {
    WithoutCapitalEStyled(AddingMessage);
  }

  lemma AddedMessageStyled()
    ensures StyleOf(AddedMessage) == SuccessStyle
  {
    WithoutCapitalEStyled(AddedMessage);
  }
}
