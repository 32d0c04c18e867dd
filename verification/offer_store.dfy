/** ui/store/offerStore.ts: the offer list the dashboard shows, the offer
    being viewed, and a loading flag and error text. Every action changes
    the lists only after its request succeeded; `sendOffer` first applies
    the client's copy of the Free-plan quota. */
module OfferStore {
  import opened Common
  import opened OfferModel
  import opened CompanyModel
  import opened KeyedLists
  import opened ClientModel

  /** The Free plan's offer quota as the client checks it. */
  const ClientOfferQuota := 3

  function HasId(id: int): ClientOffer -> bool
  {
    (o: ClientOffer) => o.id == id
  }

  function SetStatus(status: OfferStatus): ClientOffer -> ClientOffer
  {
    (o: ClientOffer) => o.(status := status)
  }

  /** `currentOffer?.id === id ? f(currentOffer) : currentOffer`. */
  function ReplaceCurrent(current: Option<ClientOffer>, id: int, f: ClientOffer -> ClientOffer): (r: Option<ClientOffer>)
    ensures current.None? ==> r.None?
    ensures current.Some? && current.value.id == id ==> r == Some(f(current.value))
    ensures current.Some? && current.value.id != id ==> r == current
  {
    if current.Some? && current.value.id == id then Some(f(current.value)) else current
  }

  /** The list after a status change of offer `id`: only that offer's
      status differs, every other field and every other offer is kept. */
  function WithStatus(offers: seq<ClientOffer>, id: int, status: OfferStatus): (r: seq<ClientOffer>)
    ensures |r| == |offers|
    ensures forall i :: 0 <= i < |offers| ==>
      if offers[i].id == id then r[i] == offers[i].(status := status) else r[i] == offers[i]
  {
    ReplaceWhere(offers, HasId(id), SetStatus(status))
  }

  /** The quota guard of `sendOffer`: a known company on the Free plan
      that has used its three offers. */
  predicate OverFreeQuota(company: Option<ClientCompany>)
  {
    company.Some? && company.value.plan == Free && company.value.offersUsed >= ClientOfferQuota
  }

  /** The message the guard is thrown with. */
  const QuotaMessage := "Ücretsiz plan limiti doldu. Lütfen planınızı yükseltin."

  const SendFailed := "Teklif gönderilemedi"

  class OfferStore {
    var offers: seq<ClientOffer>
    var currentOffer: Option<ClientOffer>
    var loading: bool
    var error: Option<string>

    constructor()
      ensures offers == [] && currentOffer == None && !loading && error == None
    {
      offers := [];
      currentOffer := None;
      loading := false;
      error := None;
    }

    /** `fetchOffers`: a failure keeps the list and records the error. */
    method FetchOffers(reply: Reply<seq<ClientOffer>>)
      modifies this
      ensures !loading && currentOffer == old(currentOffer)
      ensures reply.Ok? ==> offers == reply.data && error == None
      ensures reply.Err? ==> offers == old(offers) && error == Some(MessageOr(reply.error, "Teklifler yüklenemedi"))
    {
      loading := true;
      error := None;
      match reply {
        case Ok(data) =>
          offers := data;
          loading := false;
        case Err(e) =>
          error := Some(MessageOr(e, "Teklifler yüklenemedi"));
          loading := false;
      }
    }

    /** `fetchOffer`: loads the offer being viewed. */
    method FetchOffer(reply: Reply<ClientOffer>)
      modifies this
      ensures !loading && offers == old(offers)
      ensures reply.Ok? ==> currentOffer == Some(reply.data) && error == None
      ensures reply.Err? ==> currentOffer == old(currentOffer) && error == Some(MessageOr(reply.error, "Teklif yüklenemedi"))
    {
      loading := true;
      error := None;
      match reply {
        case Ok(data) =>
          currentOffer := Some(data);
          loading := false;
        case Err(e) =>
          error := Some(MessageOr(e, "Teklif yüklenemedi"));
          loading := false;
      }
    }

    /** `createOffer`: the new offer goes first, the others follow in
      their order. */
    method CreateOffer(reply: Reply<ClientOffer>) returns (outcome: Outcome<ClientOffer>)
      modifies this`offers
      ensures reply.Ok? ==> outcome == Returned(reply.data) && offers == [reply.data] + old(offers)
      ensures reply.Err? ==>
        outcome == Threw(MessageOrBody(reply.error, "Teklif oluşturulamadı")) && offers == old(offers)
    {
      match reply {
        case Ok(created) =>
          offers := [created] + offers;
          outcome := Returned(created);
        case Err(e) =>
          outcome := Threw(MessageOrBody(e, "Teklif oluşturulamadı"));
      }
    }

    /** `updateOffer`: every entry with the id, and the offer being viewed
      if it has the id, become the returned offer. */
    method UpdateOffer(id: int, reply: Reply<ClientOffer>) returns (outcome: Outcome<ClientOffer>)
      modifies this`offers, this`currentOffer
      ensures reply.Ok? ==>
        && outcome == Returned(reply.data)
        && offers == ReplaceWhere(old(offers), HasId(id), (o: ClientOffer) => reply.data)
        && currentOffer == ReplaceCurrent(old(currentOffer), id, (o: ClientOffer) => reply.data)
      ensures reply.Err? ==>
        && outcome == Threw(MessageOr(reply.error, "Teklif güncellenemedi"))
        && offers == old(offers) && currentOffer == old(currentOffer)
    {
      match reply {
        case Ok(updated) =>
          offers := ReplaceWhere(offers, HasId(id), (o: ClientOffer) => updated);
          currentOffer := ReplaceCurrent(currentOffer, id, (o: ClientOffer) => updated);
          outcome := Returned(updated);
        case Err(e) =>
          outcome := Threw(MessageOr(e, "Teklif güncellenemedi"));
      }
    }

    /** `deleteOffer`: the entries with the id go; the offer being viewed
      is cleared only if it has the id. */
    method DeleteOffer(id: int, reply: Reply<()>) returns (outcome: Outcome<()>)
      modifies this`offers, this`currentOffer
      ensures reply.Ok? ==>
        && outcome == Returned(())
        && offers == RemoveWhere(old(offers), HasId(id))
        && currentOffer == (if old(currentOffer).Some? && old(currentOffer).value.id == id then None else old(currentOffer))
      ensures reply.Err? ==>
        && outcome == Threw(MessageOr(reply.error, "Teklif silinemedi"))
        && offers == old(offers) && currentOffer == old(currentOffer)
    {
      match reply {
        case Ok(_) =>
          offers := RemoveWhere(offers, HasId(id));
          if currentOffer.Some? && currentOffer.value.id == id {
            currentOffer := None;
          }
          outcome := Returned(());
        case Err(e) =>
          outcome := Threw(MessageOr(e, "Teklif silinemedi"));
      }
    }

    /** The shared shape of send, accept, reject and cancel once the
      request succeeded: the offer with the id takes `status`, both in the
      list and as the offer being viewed. */
    method MarkStatus(id: int, status: OfferStatus)
      modifies this`offers, this`currentOffer
      ensures offers == WithStatus(old(offers), id, status)
      ensures currentOffer == ReplaceCurrent(old(currentOffer), id, SetStatus(status))
    {
      offers := WithStatus(offers, id, status);
      currentOffer := ReplaceCurrent(currentOffer, id, SetStatus(status));
    }

    /** `sendOffer`. With the quota used up nothing is sent and nothing
      changes; the guard's own message is lost, because the error it
      throws has no response, and the generic failure text is thrown. */
    method SendOffer(id: int, company: Option<ClientCompany>, reply: Reply<()>) returns (outcome: Outcome<()>)
      modifies this`offers, this`currentOffer
      ensures OverFreeQuota(company) ==>
        outcome == Threw(SendFailed) && offers == old(offers) && currentOffer == old(currentOffer)
      ensures !OverFreeQuota(company) && reply.Ok? ==>
        && outcome == Returned(())
        && offers == WithStatus(old(offers), id, Sent)
        && currentOffer == ReplaceCurrent(old(currentOffer), id, SetStatus(Sent))
      ensures !OverFreeQuota(company) && reply.Err? ==>
        && outcome == Threw(MessageOr(reply.error, SendFailed))
        && offers == old(offers) && currentOffer == old(currentOffer)
    {
      var failure: Option<Thrown> := None;
      if OverFreeQuota(company) {
        failure := Some(Thrown(None, QuotaMessage));
      } else if reply.Err? {
        failure := Some(reply.error);
      }
      if failure.Some? {
        LocalErrorMessages(QuotaMessage, SendFailed);
        return Threw(MessageOr(failure.value, SendFailed));
      }
      MarkStatus(id, Sent);
      outcome := Returned(());
    }

    /** `acceptOffer`, `rejectOffer` and `cancelOffer`, which differ only
      in the status they set. */
    method ChangeStatus(id: int, status: OfferStatus, reply: Reply<()>) returns (outcome: Outcome<()>)
      requires status in {Accepted, Rejected, Cancelled}
      modifies this`offers, this`currentOffer
      ensures reply.Ok? ==>
        && outcome == Returned(())
        && offers == WithStatus(old(offers), id, status)
        && currentOffer == ReplaceCurrent(old(currentOffer), id, SetStatus(status))
      ensures reply.Err? ==>
        && outcome == Threw(MessageOr(reply.error, "Durum güncellenemedi"))
        && offers == old(offers) && currentOffer == old(currentOffer)
    {
      match reply {
        case Ok(_) =>
          MarkStatus(id, status);
          outcome := Returned(());
        case Err(e) =>
          outcome := Threw(MessageOr(e, "Durum güncellenemedi"));
      }
    }

    /** `setCurrentOffer`. */
    method SetCurrentOffer(offer: Option<ClientOffer>)
      modifies this`currentOffer
      ensures currentOffer == offer
    {
      currentOffer := offer;
    }
  }

  /** After a delete no entry has the id, and every other offer is still
      listed, in its order. */
  lemma DeleteRemovesExactly(offers: seq<ClientOffer>, id: int)
    ensures forall o :: o in RemoveWhere(offers, HasId(id)) <==> o in offers && o.id != id
    ensures IsSubsequence(RemoveWhere(offers, HasId(id)), offers)
  {
    RemoveWhereSpec(offers, HasId(id));
  }
}
