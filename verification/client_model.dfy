/** The client's view of the API (the stores under ui/store): the records the stores
    hold, the outcome of a request, and the error text an action throws
    when a request fails. A request's outcome is a parameter of every
    action; nothing here talks to the network. */
module ClientModel {
  import opened Common
  import opened OfferModel
  import opened CompanyModel

  /** An offer as the offer store holds it. */
  datatype ClientOffer = ClientOffer(
    id: int,
    offerNumber: string,
    customerName: string,
    customerEmail: string,
    customerPhone: Option<string>,
    customerAddress: string,
    offerDate: string,
    dueDate: Option<string>,
    currency: Currency,
    notes: Option<string>,
    totalAmount: int,
    status: OfferStatus,
    createdAt: string,
    publicToken: string,
    companyName: string,
    items: seq<OfferItem>)

  datatype ClientUser = ClientUser(
    id: string,
    firstName: string,
    lastName: string,
    email: string,
    companyId: Option<int>,
    isActive: bool,
    createdAt: string)

  datatype ClientProduct = ClientProduct(
    id: int,
    name: string,
    description: Option<string>,
    category: Option<string>,
    price: int)

  datatype ClientCustomer = ClientCustomer(
    id: int,
    name: string,
    email: string,
    phone: Option<string>,
    address: Option<string>)

  /** The company store's record of the signed-in company, as far as the
      quota guards read it. */
  datatype ClientCompany = ClientCompany(plan: SubscriptionPlan, offersUsed: int)

  // ---------------------------------------------------------------------
  // Requests and errors

  /** The body of an error response: a JSON object (which may carry a
      `message`), a plain text, or nothing. */
  datatype Body = Json(message: Option<string>) | Text(text: string) | NoBody

  /** A rejected promise: an HTTP error carries the server's `response`,
      an error the client throws itself carries none. `message` is the
      error's own message. */
  datatype Thrown = Thrown(response: Option<Body>, message: string)

  /** What a request yielded. */
  datatype Reply<T> = Ok(data: T) | Err(error: Thrown)

  /** What an action hands its caller: a value, or the message of the
      error it throws. */
  datatype Outcome<T> = Returned(value: T) | Threw(message: string)

  /** `error.response?.data?.message`. */
  function ResponseMessage(e: Thrown): (m: Option<string>)
    ensures m.Some? ==> e.response.Some? && e.response.value.Json?
    ensures e.response.None? ==> m.None?
  {
    if e.response.Some? && e.response.value.Json? then e.response.value.message else None
  }

  /** `error.response?.data?.message || fallback`, the text most actions
      throw and store. */
  function MessageOr(e: Thrown, fallback: string): (r: string)
    ensures Truthy(ResponseMessage(e)) ==> r == ResponseMessage(e).value
    ensures !Truthy(ResponseMessage(e)) ==> r == fallback
  {
    if Truthy(ResponseMessage(e)) then ResponseMessage(e).value else fallback
  }

  /** `error.response?.data?.message || error.message || fallback`, the
      text `createUser` throws. */
  function MessageOrOwn(e: Thrown, fallback: string): (r: string)
    ensures Truthy(ResponseMessage(e)) ==> r == ResponseMessage(e).value
    ensures !Truthy(ResponseMessage(e)) && e.message != "" ==> r == e.message
    ensures !Truthy(ResponseMessage(e)) && e.message == "" ==> r == fallback
  {
    if Truthy(ResponseMessage(e)) then ResponseMessage(e).value
    else if e.message != "" then e.message
    else fallback
  }

  /** `String(body)` for a truthy body: a JSON object prints as
      "[object Object]". */
  function BodyText(b: Body): string
  {
    match b
    case Json(_) => "[object Object]"
    case Text(t) => t
    case NoBody => ""
  }

  /** `new Error(error.response?.data?.message || error.response?.data ||
      fallback).message`, the text `createOffer` throws. A JSON body
      without a message is truthy, so its text is "[object Object]". */
  function MessageOrBody(e: Thrown, fallback: string): (r: string)
    ensures Truthy(ResponseMessage(e)) ==> r == ResponseMessage(e).value
    ensures !Truthy(ResponseMessage(e)) && e.response.Some? && e.response.value.Json? ==> r == "[object Object]"
    ensures e.response.Some? && e.response.value.Text? && e.response.value.text != "" ==> r == e.response.value.text
    ensures e.response.None? || e.response.value == NoBody || e.response.value == Text("") ==> r == fallback
  {
    if Truthy(ResponseMessage(e)) then ResponseMessage(e).value
    else if e.response.Some? && BodyText(e.response.value) != "" then BodyText(e.response.value)
    else fallback
  }

  /** An error the client throws itself has no response, so the actions
      that read only the response lose its message and throw their
      fallback, while `error.message` keeps it. */
  lemma LocalErrorMessages(message: string, fallback: string)
    ensures MessageOr(Thrown(None, message), fallback) == fallback
    ensures MessageOrBody(Thrown(None, message), fallback) == fallback
    ensures message != "" ==> MessageOrOwn(Thrown(None, message), fallback) == message
  {
  }
}
