/** The read side of api/Services/OfferService.cs: fetching one offer
    within a company, listing a user's or a company's offers newest first
    one page at a time, and finding a company's most recent offer (the one
    with the highest id), whose number the next offer number continues. */
module OfferQueries {
  import opened Common
  import opened Calendar
  import opened OfferModel
  import opened Database
  import opened Ordering

  function OfferCompany(o: Offer): int
  {
    o.companyId
  }

  // ---------------------------------------------------------------------
  // The most recent offer of a company

  /** Every offer is stored under its own id, as in a valid database. */
  ghost predicate KeyedById(offers: map<int, Offer>)
  {
    forall k :: k in offers ==> offers[k].id == k
  }

  /** The id of the company's offer with the highest id, if it has any. */
  ghost function LatestKey(offers: map<int, Offer>, companyId: int): Option<int>
  {
    HighestWhere(offers, (o: Offer) => o.companyId == companyId, (o: Offer) => o.id)
  }

  /** The number of that offer, which `GenerateOfferNumber` continues. */
  ghost function LatestNumber(offers: map<int, Offer>, companyId: int): Option<string>
  {
    var k := LatestKey(offers, companyId);
    if k.None? then None else Some(offers[k.value].offerNumber)
  }

  /** `Where(o => o.CompanyId == companyId).OrderByDescending(o => o.Id)
      .FirstOrDefaultAsync()`: the company's offer with the highest id. */
  method LatestOfferOf(offers: map<int, Offer>, companyId: int) returns (last: Option<Offer>)
    requires KeyedById(offers)
    ensures last.None? <==> forall k :: k in offers ==> offers[k].companyId != companyId
    ensures last.Some? ==> last.value in offers.Values && last.value.companyId == companyId
    ensures last.Some? ==> forall o :: o in offers.Values && o.companyId == companyId ==> o.id <= last.value.id
    ensures last == (if LatestKey(offers, companyId).None? then None else Some(offers[LatestKey(offers, companyId).value]))
  {
    var keep := (o: Offer) => o.companyId == companyId;
    var rank := (o: Offer) => o.id;
    var best := FindHighestWhere(offers, keep, rank);
    ghost var spec := HighestWhere(offers, keep, rank);
    assert forall k :: k in offers ==> (keep(offers[k]) <==> offers[k].companyId == companyId);
    assert forall k :: k in offers ==> rank(offers[k]) == k;
    if best.Some? {
      assert spec.Some?;
      assert rank(offers[spec.value]) <= rank(offers[best.value]);
      assert rank(offers[best.value]) <= rank(offers[spec.value]);
      assert best == spec;
    }
    last := if best.None? then None else Some(offers[best.value]);
  }

  // ---------------------------------------------------------------------
  // Newest-first ordering

  function CreatedAt(o: Offer): DateTime
  {
    o.createdAt
  }

  // ---------------------------------------------------------------------
  // Paging

  /** C# `int` arithmetic, which wraps around silently: the 32-bit two's
      complement value of `x`. */
  function Wrap32(x: int): (r: int)
    ensures -0x8000_0000 <= r < 0x8000_0000
    ensures (x - r) % 0x1_0000_0000 == 0
    ensures -0x8000_0000 <= x < 0x8000_0000 ==> r == x
  {
    (x + 0x8000_0000) % 0x1_0000_0000 - 0x8000_0000
  }

  /** `(page - 1) * pageSize` as C# computes it: a 32-bit value, the
      exact product when that fits. Wrapping `page - 1` first would give the
      same value, since the wrap is a remainder. */
  function PageOffset(page: int, pageSize: int): (r: int)
    ensures -0x8000_0000 <= r < 0x8000_0000
    ensures -0x8000_0000 <= (page - 1) * pageSize < 0x8000_0000 ==> r == (page - 1) * pageSize
  {
    Wrap32((page - 1) * pageSize)
  }

  /** LINQ `Skip(n)`: what follows the first `n` entries. */
  function Skip(s: seq<Offer>, n: nat): (r: seq<Offer>)
    ensures |r| == if n >= |s| then 0 else |s| - n
    ensures forall i :: 0 <= i < |r| ==> r[i] == s[n + i]
  {
    if n >= |s| then [] else s[n..]
  }

  /** LINQ `Take(n)`: the first `n` entries, or all of them when there are
      fewer. */
  function Take(s: seq<Offer>, n: nat): (r: seq<Offer>)
    ensures |r| == Min(n, |s|)
    ensures r == s[..|r|]
  {
    if n >= |s| then s else s[..n]
  }

  /** `Skip((page - 1) * pageSize).Take(pageSize)` as the query runs on SQL
      Server, which refuses a negative OFFSET and a FETCH of fewer than one
      row: `None` is the failed query, and a served page holds at most
      `pageSize` offers. */
  function Page(s: seq<Offer>, page: int, pageSize: int): (r: Option<seq<Offer>>)
    ensures r.None? <==> pageSize <= 0 || PageOffset(page, pageSize) < 0
    ensures r.Some? ==> |r.value| <= pageSize
  {
    var offset := PageOffset(page, pageSize);
    if offset < 0 || pageSize <= 0 then None else Some(Take(Skip(s, offset), pageSize))
  }

  /** `r` occurs in `s` as consecutive entries starting at `lo`. */
  predicate IsRunAt(r: seq<Offer>, s: seq<Offer>, lo: int)
  {
    0 <= lo && lo + |r| <= |s| && s[lo..lo + |r|] == r
  }

  /** A page that is served is a run of consecutive entries, at most
      `pageSize` long; a failed query asked for a non-positive size or got a
      negative offset. */
  lemma PageIsSlice(s: seq<Offer>, page: int, pageSize: int)
    ensures Page(s, page, pageSize).None? <==> pageSize <= 0 || PageOffset(page, pageSize) < 0
    ensures Page(s, page, pageSize).Some? ==> |Page(s, page, pageSize).value| <= pageSize
    ensures Page(s, page, pageSize).Some? ==>
      exists lo :: 0 <= lo <= |s| && IsRunAt(Page(s, page, pageSize).value, s, lo)
  {
    if Page(s, page, pageSize).Some? {
      var offset := PageOffset(page, pageSize);
      var lo := if offset >= |s| then |s| else offset;
      assert Skip(s, offset) == s[lo..];
      assert IsRunAt(Page(s, page, pageSize).value, s, lo);
    }
  }

  /** Without overflow, page 1 and every later page start `(page - 1) *
      pageSize` entries in, while any earlier page and any page size below
      one make the query fail. */
  lemma PageCases(s: seq<Offer>, page: int, pageSize: int)
    ensures pageSize <= 0 ==> Page(s, page, pageSize).None?
    ensures page < 1 && pageSize > 0 && (page - 1) * pageSize >= -0x8000_0000 ==>
      Page(s, page, pageSize).None?
    ensures page >= 1 && pageSize > 0 && (page - 1) * pageSize < 0x8000_0000 ==>
      var lo := Min((page - 1) * pageSize, |s|);
      Page(s, page, pageSize) == Some(s[lo..Min(lo + pageSize, |s|)])
  {
    if page < 1 && pageSize > 0 && (page - 1) * pageSize >= -0x8000_0000 {
      ProductSigns(page - 1, pageSize);
      assert PageOffset(page, pageSize) == (page - 1) * pageSize;
    }
    if page >= 1 && pageSize > 0 && (page - 1) * pageSize < 0x8000_0000 {
      var offset := (page - 1) * pageSize;
      ProductSigns(page - 1, pageSize);
      assert PageOffset(page, pageSize) == offset;
      var lo := Min(offset, |s|);
      assert Skip(s, offset) == s[lo..];
      if pageSize >= |s| - lo {
        assert Take(s[lo..], pageSize) == s[lo..Min(lo + pageSize, |s|)];
      } else {
        assert Take(s[lo..], pageSize) == s[lo..lo + pageSize];
      }
    }
  }

  lemma ProductSigns(a: int, b: int)
    requires b > 0
    ensures a < 0 ==> a * b < 0
    ensures a >= 0 ==> a * b >= 0
  {
  }

  /** Far out the offset wraps around: page 2^30 + 1 of four offers starts
      at entry 2^32, which C# computes as 0, so the first page is served
      again. */
  lemma WrappedOffsetRepeatsFirstPage(s: seq<Offer>)
    ensures Page(s, 0x4000_0001, 4) == Page(s, 1, 4)
  {
    assert PageOffset(0x4000_0001, 4) == 0;
  }

  // ---------------------------------------------------------------------
  // Listing

  /** `all` lists, newest first, every offer of the table that passes
      `keep`, as many entries as there are passing keys, and each offer
      once when no two keys hold the same row. */
  ghost predicate IsNewestFirstListing(all: seq<Offer>, offers: map<int, Offer>, keep: Offer -> bool)
  {
    && LatestFirst(all, CreatedAt)
    && (forall v :: v in all <==> v in offers.Values && keep(v))
    && |all| == |KeysWhere(offers, keep)|
    && (Injective(offers) ==> Distinct(all))
  }

  /** `Where(keep).OrderByDescending(o => o.CreatedAt)` followed by the
      paging: `all` is the whole newest-first listing, `r` the requested
      page of it, or `None` when the query fails. A served page is newest
      first and holds only offers that pass; page 1 with room for every
      passing offer holds all of them. */
  method ListNewestFirst(offers: map<int, Offer>, keep: Offer -> bool, page: int, pageSize: int)
    returns (r: Option<seq<Offer>>, ghost all: seq<Offer>)
    ensures IsNewestFirstListing(all, offers, keep)
    ensures r == Page(all, page, pageSize)
    ensures r.None? <==> pageSize <= 0 || PageOffset(page, pageSize) < 0
    ensures r.Some? ==> |r.value| <= pageSize && LatestFirst(r.value, CreatedAt)
    ensures r.Some? ==> forall o :: o in r.value ==> o in offers.Values && keep(o)
    ensures page == 1 && 0 < pageSize && |KeysWhere(offers, keep)| <= pageSize ==>
      r.Some? && forall o :: o in r.value <==> o in offers.Values && keep(o)
  {
    var rows := SelectWhere(offers, keep);
    var sorted := SortLatestFirst(rows, CreatedAt);
    SortedListing(rows, offers, keep);
    PageOfListing(sorted, offers, keep, page, pageSize);
    all := sorted;
    r := Page(sorted, page, pageSize);
  }

  /** What a page of a newest-first listing holds. */
  lemma PageOfListing(all: seq<Offer>, offers: map<int, Offer>, keep: Offer -> bool, page: int, pageSize: int)
    requires IsNewestFirstListing(all, offers, keep)
    ensures var r := Page(all, page, pageSize);
      r.Some? ==> |r.value| <= pageSize && LatestFirst(r.value, CreatedAt)
    ensures var r := Page(all, page, pageSize);
      r.Some? ==> forall o :: o in r.value ==> o in offers.Values && keep(o)
    ensures page == 1 && 0 < pageSize && |KeysWhere(offers, keep)| <= pageSize ==>
      Page(all, page, pageSize) == Some(all)
  {
    var r := Page(all, page, pageSize);
    PageIsSlice(all, page, pageSize);
    if r.Some? {
      var lo :| 0 <= lo <= |all| && IsRunAt(r.value, all, lo);
      RunOfListing(all, lo, |r.value|, offers, keep);
      assert all[lo..lo + |r.value|] == r.value;
    }
    if page == 1 && 0 < pageSize && |KeysWhere(offers, keep)| <= pageSize {
      assert PageOffset(page, pageSize) == 0;
    }
  }

  /** A run of a newest-first listing is newest first and holds only
      listed offers. */
  lemma RunOfListing(all: seq<Offer>, lo: nat, n: nat, offers: map<int, Offer>, keep: Offer -> bool)
    requires IsNewestFirstListing(all, offers, keep)
    requires lo + n <= |all|
    ensures LatestFirst(all[lo..lo + n], CreatedAt)
    ensures forall o :: o in all[lo..lo + n] ==> o in offers.Values && keep(o)
  {
    var run := all[lo..lo + n];
    forall i, j | 0 <= i < j < |run| ensures !Before(CreatedAt(run[i]), CreatedAt(run[j])) {
      assert run[i] == all[lo + i] && run[j] == all[lo + j];
    }
    forall o | o in run ensures o in all {
      var i :| 0 <= i < |run| && run[i] == o;
      assert all[lo + i] == o;
    }
  }

  /** Sorting the selected rows gives the listing. */
  lemma SortedListing(rows: seq<Offer>, offers: map<int, Offer>, keep: Offer -> bool)
    requires forall v :: v in rows <==> v in offers.Values && keep(v)
    requires |rows| == |KeysWhere(offers, keep)|
    requires Injective(offers) ==> Distinct(rows)
    ensures IsNewestFirstListing(SortLatestFirst(rows, CreatedAt), offers, keep)
  {
    SortIsLatestFirst(rows, CreatedAt);
    SortKeepsRows(rows, CreatedAt);
    if Injective(offers) {
      PermutationKeepsDistinct(rows, SortLatestFirst(rows, CreatedAt));
    }
  }

  /** `GetOfferByIdAsync`: the offer with this id, provided it belongs to
      the company. */
  method GetOfferById(db: Db, id: int, companyId: int) returns (r: Option<Offer>)
    ensures r.Some? <==> id in db.offers && db.offers[id].companyId == companyId
    ensures r.Some? ==> r.value == db.offers[id]
  {
    r := FindOwned(db.offers, OfferCompany, id, companyId);
  }

  /** `GetOffersByCompanyAsync`: a page of the company's offers, newest
      first, or `None` when the query fails. */
  method GetOffersByCompany(db: Db, companyId: int, page: int, pageSize: int)
    returns (r: Option<seq<Offer>>, ghost all: seq<Offer>)
    ensures IsNewestFirstListing(all, db.offers, OffersOfCompany(companyId))
    ensures r == Page(all, page, pageSize)
    ensures r.None? <==> pageSize <= 0 || PageOffset(page, pageSize) < 0
    ensures r.Some? ==> |r.value| <= pageSize && LatestFirst(r.value, CreatedAt)
    ensures r.Some? ==> forall o :: o in r.value ==> o in db.offers.Values && o.companyId == companyId
  {
    r, all := ListNewestFirst(db.offers, OffersOfCompany(companyId), page, pageSize);
  }

  /** `GetOffersByUserAsync`: a page of the user's offers, newest first, or
      `None` when the query fails. */
  method GetOffersByUser(db: Db, userId: string, page: int, pageSize: int)
    returns (r: Option<seq<Offer>>, ghost all: seq<Offer>)
    ensures IsNewestFirstListing(all, db.offers, OffersOfUser(userId))
    ensures r == Page(all, page, pageSize)
    ensures r.None? <==> pageSize <= 0 || PageOffset(page, pageSize) < 0
    ensures r.Some? ==> |r.value| <= pageSize && LatestFirst(r.value, CreatedAt)
    ensures r.Some? ==> forall o :: o in r.value ==> o in db.offers.Values && o.userId == userId
  {
    r, all := ListNewestFirst(db.offers, OffersOfUser(userId), page, pageSize);
  }

  function OffersOfCompany(companyId: int): Offer -> bool
  {
    (o: Offer) => o.companyId == companyId
  }

  function OffersOfUser(userId: string): Offer -> bool
  {
    (o: Offer) => o.userId == userId
  }
}
