/** The offer list page (ui/app/dashboard/offers/page.tsx): the search and
    status filter over the loaded offers, the badge class of each status,
    which status actions a row offers, and the WhatsApp share link. */
module OfferListPage {
  import opened Common
  import opened OfferModel
  import opened ClientModel

  /** The status as the API spells it in JSON. */
  function StatusName(s: OfferStatus): string
  {
    match s
    case Draft => "Draft"
    case Sent => "Sent"
    case Viewed => "Viewed"
    case Accepted => "Accepted"
    case Rejected => "Rejected"
    case Expired => "Expired"
    case Cancelled => "Cancelled"
  }

  /** Whether an offer passes the search term and the status filter: its
      customer name or its number contains the term, case aside, and the
      filter is "all" or names its status. */
  function Matches(o: ClientOffer, searchTerm: string, statusFilter: string): (b: bool)
    ensures searchTerm == "" && statusFilter == "all" ==> b
    ensures b && statusFilter != "all" ==> StatusName(o.status) == statusFilter
  {
    EmptyIsIncluded(Lower(o.customerName));
    && (Includes(Lower(o.customerName), Lower(searchTerm)) || Includes(Lower(o.offerNumber), Lower(searchTerm)))
    && (statusFilter == "all" || StatusName(o.status) == statusFilter)
  }

  /** `filteredOffers`: the list keeps the offers' order, and holds
      exactly the offers that pass both tests. */
  function FilteredOffers(offers: seq<ClientOffer>, searchTerm: string, statusFilter: string): (r: seq<ClientOffer>)
    ensures IsSubsequence(r, offers)
    ensures forall o :: o in r <==> o in offers && Matches(o, searchTerm, statusFilter)
  {
    var keep := (o: ClientOffer) => Matches(o, searchTerm, statusFilter);
    FilterSpec(offers, keep);
    Filter(offers, keep)
  }

  /** With no search term and the "all" filter every offer is listed. */
  lemma NoFilterKeepsAll(offers: seq<ClientOffer>)
    ensures FilteredOffers(offers, "", "all") == offers
  {
    FilterKeepsAll(offers, (o: ClientOffer) => Matches(o, "", "all"));
  }

  const DraftColor := "bg-gray-100 text-gray-800"

  /** `getStatusColor`: the badge class of a status name; a name that is
      not a status gets the Draft class. */
  function StatusColor(status: string): (r: string)
    ensures r == DraftColor <==> status == "Draft" || forall s :: StatusName(s) != status
  {
    assert StatusName(Sent) == "Sent" && StatusName(Viewed) == "Viewed" && StatusName(Accepted) == "Accepted";
    assert StatusName(Rejected) == "Rejected" && StatusName(Expired) == "Expired" && StatusName(Cancelled) == "Cancelled";
    if status == "Draft" then DraftColor
    else if status == "Sent" then "bg-blue-100 text-blue-800"
    else if status == "Viewed" then "bg-indigo-100 text-indigo-800"
    else if status == "Accepted" then "bg-green-100 text-green-800"
    else if status == "Rejected" then "bg-red-100 text-red-800"
    else if status == "Expired" then "bg-yellow-100 text-yellow-800"
    else if status == "Cancelled" then "bg-gray-300 text-gray-800"
    else DraftColor
  }

  /** Distinct statuses get distinct classes, and a status other than Draft
      never looks like an unknown name. */
  lemma StatusColorsDistinct(a: OfferStatus, b: OfferStatus, unknown: string)
    requires forall s :: StatusName(s) != unknown
    ensures a != b ==> StatusColor(StatusName(a)) != StatusColor(StatusName(b))
    ensures StatusColor(unknown) == StatusColor(StatusName(Draft))
    ensures a != Draft ==> StatusColor(StatusName(a)) != StatusColor(unknown)
  {
    assert StatusName(Sent) != unknown && StatusName(Viewed) != unknown && StatusName(Accepted) != unknown;
    assert StatusName(Rejected) != unknown && StatusName(Expired) != unknown && StatusName(Cancelled) != unknown;
  }

  /** The Accept action is offered unless the offer is accepted, the
      Reject action unless it is rejected; the page compares the status as
      the API spells it. */
  function ShowAccept(o: ClientOffer): (b: bool)
    ensures b <==> StatusName(o.status) != "Accepted"
  {
    o.status != Accepted
  }

  function ShowReject(o: ClientOffer): (b: bool)
    ensures b <==> StatusName(o.status) != "Rejected"
  {
    o.status != Rejected
  }

  /** Every row offers Accept or Reject; an offer that is neither accepted
      nor rejected offers both. */
  lemma ActionsNeverBothHidden(o: ClientOffer)
    ensures ShowAccept(o) || ShowReject(o)
    ensures !ShowAccept(o) <==> o.status == Accepted
    ensures !ShowReject(o) <==> o.status == Rejected
  {
  }

  /** The share message for an offer's public page. */
  function ShareMessage(origin: string, publicToken: string): string
  {
    "Merhaba, size özel teklifiniz hazırlandı. İncelemek için tıklayın:\n" + origin + "/public-offer/" + publicToken
  }

  const WhatsAppBase := "https://wa.me/"

  /** The WhatsApp link: to the customer's number when the offer has a
      non-empty phone, otherwise to no one in particular. `encoded` is the
      percent-encoded share message. */
  function WhatsAppLink(phone: Option<string>, encoded: string): (r: string)
    ensures StartsWith(r, WhatsAppBase)
    ensures |r| >= |WhatsAppBase| + |"?text=" + encoded|
    ensures r[|r| - |"?text=" + encoded|..] == "?text=" + encoded
  {
    if Truthy(phone) then WhatsAppBase + phone.value + "?text=" + encoded
    else WhatsAppBase + "?text=" + encoded
  }

  /** The text of `s` before its first `c`. */
  function TextBefore(s: string, c: char): (r: string)
    ensures |r| <= |s| && r == s[..|r|]
    ensures c !in r
    ensures |r| < |s| ==> s[|r|] == c
  {
    if s == [] then []
    else if s[0] == c then []
    else [s[0]] + TextBefore(s[1..], c)
  }

  /** The number a link is addressed to: what follows the base address up
      to the query. */
  function LinkedPhone(link: string): string
  {
    if StartsWith(link, WhatsAppBase) then TextBefore(link[|WhatsAppBase|..], '?') else ""
  }

  /** The link is addressed to the offer's phone when it has one (and the
      number holds no '?'), and to nobody otherwise. */
  lemma WhatsAppLinkAddressee(phone: Option<string>, encoded: string)
    requires phone.Some? ==> '?' !in phone.value
    ensures Truthy(phone) ==> LinkedPhone(WhatsAppLink(phone, encoded)) == phone.value
    ensures !Truthy(phone) ==> LinkedPhone(WhatsAppLink(phone, encoded)) == ""
  {
    var link := WhatsAppLink(phone, encoded);
    var rest := if Truthy(phone) then phone.value + "?text=" + encoded else "?text=" + encoded;
    assert link == WhatsAppBase + rest;
    assert link[|WhatsAppBase|..] == rest;
    if Truthy(phone) {
      TextBeforeStopsAtFirst(phone.value, "?text=" + encoded, '?');
    }
  }

  lemma {:induction false} TextBeforeStopsAtFirst(a: string, b: string, c: char)
    requires c !in a && b != [] && b[0] == c
    ensures TextBefore(a + b, c) == a
  {
    if a == [] {
      assert a + b == b;
    } else {
      assert (a + b)[1..] == a[1..] + b;
      TextBeforeStopsAtFirst(a[1..], b, c);
    }
  }
}
