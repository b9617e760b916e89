/**
 * The table management page: a form that creates a table from a typed
 * number, the list of tables sorted by number, and for each table the
 * address its QR code encodes.
 */
module ManageTables {
  import opened Wrappers
  import opened Http
  import opened Text
  import opened Domain
  import opened Sorting

  const InvalidNumberMessage: string := "Por favor, insira um número de mesa válido."
  const CreateTableFallback: string := "Ocorreu um erro ao criar a mesa."

  /** `Mesa "<n>" criada com sucesso!`: the number comes right after the
      opening quote, and `parseInt` of the rest reads it back. */
  function CreatedMessage(n: int): (msg: string)
    ensures |msg| > |CreatedPrefix| && msg[..|CreatedPrefix|] == CreatedPrefix
    ensures ParseInt(msg[|CreatedPrefix|..]) == Some(n)
  {
    CreatedMessageReadsBack(n);
    CreatedHead(n) + "sucesso" + "!"
  }

  const CreatedPrefix: string := "Mesa \""

  function CreatedHead(n: int): string {
    CreatedPrefix + FormatInt(n) + "\" criada com "
  }

  lemma CreatedMessageReadsBack(n: int)
    ensures var msg := CreatedHead(n) + "sucesso" + "!";
      |msg| > |CreatedPrefix| && msg[..|CreatedPrefix|] == CreatedPrefix
      && ParseInt(msg[|CreatedPrefix|..]) == Some(n)
  {
    var msg := CreatedHead(n) + "sucesso" + "!";
    var f := FormatInt(n);
    var k := |CreatedPrefix| + |f|;
    assert msg[..|CreatedPrefix|] == CreatedPrefix;
    assert msg[|CreatedPrefix|..k] == f;
    assert msg[k] == '"';
    var rest := msg[k..];
    assert msg[|CreatedPrefix|..] == f + rest;
    ParseIntFormatInt(n, rest);
  }

  /** The body of the creation request, `{ tableNumber: num }`. */
  datatype TableRequest = TableRequest(tableNumber: int)

  /** The number the form accepts: `parseInt(text, 10)`, unless that is `NaN` or not positive. */
  function AcceptedNumber(text: string): (n: Option<int>)
    ensures n.Some? <==> ParseInt(text).Some? && ParseInt(text).value > 0
    ensures n.Some? ==> n.value == ParseInt(text).value
  {
    match ParseInt(text)
    case None => None
    case Some(v) => if v <= 0 then None else Some(v)
  }

  /** A typed positive number is accepted as typed, whatever non-digit text
      follows it; a text without digits is refused. */
  lemma AcceptedNumberOfTypedNumber(n: int, rest: string, junk: string)
    requires rest == [] || !IsDigit(rest[0])
    requires forall i | 0 <= i < |junk| :: !IsDigit(junk[i])
    ensures AcceptedNumber(FormatInt(n) + rest) == if n > 0 then Some(n) else None
    ensures AcceptedNumber(junk) == None
  {
    ParseIntFormatInt(n, rest);
    ParseIntWithoutDigits(junk);
  }

  /** The message a failed creation shows: the backend's `message`, else a fixed text. */
  function CreateFailureMessage(e: HttpError): (msg: string)
    ensures e.responseMessage != "" ==> msg == e.responseMessage
    ensures e.responseMessage == "" ==> msg == CreateTableFallback
  {
    OrElse(e.responseMessage, CreateTableFallback)
  }

  /** A message is shown in green exactly when it contains "sucesso". */
  predicate ShownAsSuccess(msg: string) {
    Contains(msg, "sucesso")
  }

  /** The creation message is green, the validation and fallback messages are
      red; a backend message is green only if it happens to say "sucesso". */
  lemma CreatedMessageGreen(n: int)
    ensures ShownAsSuccess(CreatedMessage(n))
  {
    ContainsSuffixPart(CreatedHead(n), "sucesso", "!");
  }

  lemma InvalidNumberMessageRed()
    ensures !ShownAsSuccess(InvalidNumberMessage)
  {
    NotContainsWithoutChar(InvalidNumberMessage, "sucesso", 2);
  }

  lemma FailureMessageColour(e: HttpError)
    ensures ShownAsSuccess(CreateFailureMessage(e)) <==> e.responseMessage != "" && Contains(e.responseMessage, "sucesso")
  {
    assert CreateTableFallback == "Ocorreu um erro ao criar a me" + "sa.";
    NotContainsShortTail("Ocorreu um erro ao criar a me", "sa.", "sucesso");
  }

  lemma ContainsSuffixPart(a: string, t: string, b: string)
    ensures Contains(a + t + b, t)
  {
    ContainsIffOccurs(a + t + b, t);
    assert OccursAt(a + t + b, t, |a|);
  }

  const TableUrlPath: string := "/customer/start?tableId="

  /** `getTableUrl`: the address the table's QR code encodes. */
  function TableUrl(origin: string, tableId: string): (url: string)
    ensures |url| == |origin| + |TableUrlPath| + |tableId|
  {
    origin + TableUrlPath + tableId
  }

  /** The table id is what follows the fixed path, so two tables of the same
      origin never share an address. */
  lemma TableUrlRecoversId(origin: string, id1: string, id2: string)
    ensures TableUrl(origin, id1)[..|origin| + |TableUrlPath|] == origin + TableUrlPath
    ensures TableUrl(origin, id1)[|origin| + |TableUrlPath|..] == id1
    ensures TableUrl(origin, id1) == TableUrl(origin, id2) ==> id1 == id2
  {
    var k := |origin| + |TableUrlPath|;
    assert TableUrl(origin, id1)[k..] == id1;
    assert TableUrl(origin, id2)[k..] == id2;
  }

  /** `(a, b) => a.tableNumber - b.tableNumber`, read as "`a` may come first". */
  predicate NumberLeq(a: Table, b: Table) {
    a.tableNumber - b.tableNumber <= 0
  }

  lemma NumberOrderIsTotalPreorder()
    ensures TotalPreorder(NumberLeq)
  {
  }

  /** The list's `.sort`, which reorders the shared array of tables in place. */
  method SortTables(a: array<Table>)
    modifies a
    ensures SortedBy(a[..], NumberLeq)
    ensures forall i, j | 0 <= i < j < a.Length :: a[i].tableNumber <= a[j].tableNumber
    ensures multiset(a[..]) == multiset(old(a[..]))
  {
    NumberOrderIsTotalPreorder();
    SortInPlace(a, NumberLeq);
  }

  class ManageTablesPage {
    var tableNumber: string
    var message: string

    constructor()
      ensures tableNumber == "" && message == ""
    {
      tableNumber, message := "", "";
    }

    method OnTableNumberInput(text: string)
      modifies this
      ensures tableNumber == text && message == old(message)
    {
      tableNumber := text;
    }

    /** `handleCreateTable` up to the request: the message is cleared, then
        a text that is not a positive number is refused with a message;
        otherwise the number is sent. */
    method CreateTable() returns (request: Option<TableRequest>)
      modifies this
      ensures request.None? <==> AcceptedNumber(old(tableNumber)).None?
      ensures request.Some? ==> request.value == TableRequest(AcceptedNumber(old(tableNumber)).value)
      ensures tableNumber == old(tableNumber)
      ensures message == if request.None? then InvalidNumberMessage else ""
    {
      message := "";
      var num := ParseInt(tableNumber);
      if num.None? || num.value <= 0 {
        message := InvalidNumberMessage;
        return None;
      }
      request := Some(TableRequest(num.value));
    }

    /** `handleCreateTable` after `request` was posted: a success announces
        the table it named, clears the field and asks for the table list
        again; a failure shows the backend's message and keeps the field. */
    method CreateTableSettled(request: TableRequest, outcome: Outcome<Table>) returns (invalidate: bool)
      modifies this
      ensures outcome.Success? ==> message == CreatedMessage(request.tableNumber) && tableNumber == "" && invalidate
      ensures outcome.Failure? ==>
        message == CreateFailureMessage(outcome.error) && tableNumber == old(tableNumber) && !invalidate
    {
      match outcome {
        case Success(_) =>
          message := CreatedMessage(request.tableNumber);
          tableNumber := "";
          invalidate := true;
        case Failure(e) =>
          message := CreateFailureMessage(e);
          invalidate := false;
      }
    }
  }
}
