/** The super-admin dashboard of api/Services/AdminService.cs: one summary
    per company with its offer and user counts, the number of companies per
    plan, and the revenue collected today, this week, this month and in
    total. Dates are compared as day numbers of the UTC clock reading. */
module AdminDashboard {
  import opened Common
  import opened Calendar
  import opened OfferModel
  import opened CompanyModel
  import opened Database
  import opened CompanyService

  datatype CompanySummary = CompanySummary(
    id: int,
    name: string,
    offerCount: nat,
    userCount: nat,
    plan: SubscriptionPlan)

  datatype Dashboard = Dashboard(
    companies: seq<CompanySummary>,
    totalCompanies: nat,
    proCompanies: nat,
    freeCompanies: nat,
    revenueToday: int,
    revenueThisWeek: int,
    revenueThisMonth: int,
    revenueTotal: int)

  function Amount(p: Payment): int
  {
    p.amount
  }

  function OffersOf(companyId: int): Offer -> bool
  {
    (o: Offer) => o.companyId == companyId
  }

  function UsersOf(companyId: int): User -> bool
  {
    (u: User) => u.companyId == Some(companyId)
  }

  function OnPlan(plan: SubscriptionPlan): Company -> bool
  {
    (c: Company) => c.plan == plan
  }

  /** The summary row of one company. */
  function Summarize(c: Company, users: seq<User>, offers: seq<Offer>): (r: CompanySummary)
    ensures r.id == c.id && r.name == c.name && r.plan == c.plan
    ensures r.offerCount == |Filter(offers, OffersOf(c.id))|
    ensures r.userCount == |Filter(users, UsersOf(c.id))|
  {
    CompanySummary(c.id, c.name, |Filter(offers, OffersOf(c.id))|, |Filter(users, UsersOf(c.id))|, c.plan)
  }

  /** The payments dated on or after `from`, with no upper bound: a
      payment dated no earlier than a counted one is counted too. */
  function PaidSince(from: int): (r: Payment -> bool)
    ensures forall p: Payment, q: Payment :: r(p) && DayNumber(q.paidAt) >= DayNumber(p.paidAt) ==> r(q)
  {
    (p: Payment) => DayNumber(p.paidAt) >= from
  }

  /** The payments dated today: those since today that are not since
      tomorrow. */
  function PaidToday(today: int): (r: Payment -> bool)
    ensures forall p: Payment :: r(p) <==> PaidSince(today)(p) && !PaidSince(today + 1)(p)
  {
    (p: Payment) => DayNumber(p.paidAt) == today
  }

  /** `GetDashboardAsync` over the loaded rows. */
  function BuildDashboard(companies: seq<Company>, users: seq<User>, offers: seq<Offer>,
                          payments: seq<Payment>, utcNow: DateTime): (d: Dashboard)
    ensures |d.companies| == |companies| == d.totalCompanies
    ensures forall i :: 0 <= i < |companies| ==> d.companies[i] == Summarize(companies[i], users, offers)
    ensures d.proCompanies == |Filter(companies, OnPlan(Pro))|
    ensures d.freeCompanies == |Filter(companies, OnPlan(Free))|
    ensures d.revenueToday == Sum(Filter(payments, PaidToday(DayNumber(utcNow))), Amount)
    ensures d.revenueThisWeek == Sum(Filter(payments, PaidSince(StartOfWeek(DayNumber(utcNow)))), Amount)
    ensures d.revenueThisMonth == Sum(Filter(payments, PaidSince(StartOfMonth(utcNow))), Amount)
    ensures d.revenueTotal == Sum(payments, Amount)
  {
    var today := DayNumber(utcNow);
    Dashboard(
      seq(|companies|, i requires 0 <= i < |companies| => Summarize(companies[i], users, offers)),
      |companies|,
      |Filter(companies, OnPlan(Pro))|,
      |Filter(companies, OnPlan(Free))|,
      Sum(Filter(payments, PaidToday(today)), Amount),
      Sum(Filter(payments, PaidSince(StartOfWeek(today))), Amount),
      Sum(Filter(payments, PaidSince(StartOfMonth(utcNow))), Amount),
      Sum(payments, Amount))
  }

  // ---------------------------------------------------------------------
  // Counting

  /** Filtering by either of two exclusive conditions counts the elements
      of each. */
  lemma {:induction false} FilterCountDisjoint<T>(s: seq<T>, a: T -> bool, b: T -> bool, either: T -> bool)
    requires forall i :: 0 <= i < |s| ==> !(a(s[i]) && b(s[i]))
    requires forall i :: 0 <= i < |s| ==> (either(s[i]) <==> a(s[i]) || b(s[i]))
    ensures |Filter(s, either)| == |Filter(s, a)| + |Filter(s, b)|
  {
    if s != [] {
      FilterCountDisjoint(s[1..], a, b, either);
    }
  }

  /** Every company is on exactly one of the three plans, so the Pro and
      Free counts add up to the total less the Enterprise companies. */
  lemma PlanCountsPartition(companies: seq<Company>, users: seq<User>, offers: seq<Offer>,
                            payments: seq<Payment>, utcNow: DateTime)
    ensures var d := BuildDashboard(companies, users, offers, payments, utcNow);
      d.proCompanies + d.freeCompanies + |Filter(companies, OnPlan(Enterprise))| == d.totalCompanies
    ensures var d := BuildDashboard(companies, users, offers, payments, utcNow);
      d.proCompanies + d.freeCompanies <= d.totalCompanies
  {
    var proOrFree := (c: Company) => c.plan == Pro || c.plan == Free;
    var any := (c: Company) => true;
    FilterCountDisjoint(companies, OnPlan(Pro), OnPlan(Free), proOrFree);
    FilterCountDisjoint(companies, proOrFree, OnPlan(Enterprise), any);
    FilterKeepsAll(companies, any);
  }

  /** The companies' ids. */
  function Ids(companies: seq<Company>): set<int>
  {
    set i | 0 <= i < |companies| :: companies[i].id
  }

  /** When company ids are distinct and every offer belongs to one of the
      listed companies, the summaries' offer counts add up to the number of
      offers: each offer is counted exactly once. */
  lemma OfferCountsCoverAllOffers(companies: seq<Company>, users: seq<User>, offers: seq<Offer>,
                                  payments: seq<Payment>, utcNow: DateTime)
    requires forall i, j :: 0 <= i < j < |companies| ==> companies[i].id != companies[j].id
    requires forall i :: 0 <= i < |offers| ==> offers[i].companyId in Ids(companies)
    ensures Sum(BuildDashboard(companies, users, offers, payments, utcNow).companies,
                (s: CompanySummary) => s.offerCount) == |offers|
  {
    var d := BuildDashboard(companies, users, offers, payments, utcNow);
    OfferCountsCover(companies, offers);
    SumCongruentSummaries(companies, users, offers, d.companies);
    FilterKeepsAll(offers, (o: Offer) => o.companyId in Ids(companies));
  }

  /** The summaries' offer counts are the per-company filter counts. */
  lemma {:induction false} SumCongruentSummaries(companies: seq<Company>, users: seq<User>, offers: seq<Offer>,
                                                  summaries: seq<CompanySummary>)
    requires |summaries| == |companies|
    requires forall i :: 0 <= i < |companies| ==> summaries[i] == Summarize(companies[i], users, offers)
    ensures Sum(summaries, (s: CompanySummary) => s.offerCount) == CountPerCompany(companies, offers)
  {
    if companies != [] {
      SumCongruentSummaries(companies[1..], users, offers, summaries[1..]);
    }
  }

  /** The offer counts of the companies, added up. */
  function CountPerCompany(companies: seq<Company>, offers: seq<Offer>): int
  {
    if companies == [] then 0
    else |Filter(offers, OffersOf(companies[0].id))| + CountPerCompany(companies[1..], offers)
  }

  /** With distinct ids, adding up per-company counts counts every offer
      of a listed company exactly once. */
  lemma {:induction false} OfferCountsCover(companies: seq<Company>, offers: seq<Offer>)
    requires forall i, j :: 0 <= i < j < |companies| ==> companies[i].id != companies[j].id
    ensures CountPerCompany(companies, offers) == |Filter(offers, (o: Offer) => o.companyId in Ids(companies))|
  {
    var listed := (o: Offer) => o.companyId in Ids(companies);
    if companies == [] {
      assert Filter(offers, listed) == Filter(offers, (o: Offer) => false) by {
        FilterSame(offers, listed, (o: Offer) => false);
      }
      NothingPasses(offers);
    } else {
      var c := companies[0];
      var rest := companies[1..];
      OfferCountsCover(rest, offers);
      assert Ids(companies) == {c.id} + Ids(rest) by {
        forall x | x in Ids(companies) ensures x in {c.id} + Ids(rest) {
          var i :| 0 <= i < |companies| && companies[i].id == x;
          if i > 0 {
            assert rest[i - 1].id == x;
          }
        }
        forall x | x in Ids(rest) ensures x in Ids(companies) {
          var i :| 0 <= i < |rest| && rest[i].id == x;
          assert companies[i + 1].id == x;
        }
      }
      assert c.id !in Ids(rest) by {
        forall i | 0 <= i < |rest| ensures rest[i].id != c.id {
          assert rest[i] == companies[i + 1];
        }
      }
      FilterCountDisjoint(offers, OffersOf(c.id), (o: Offer) => o.companyId in Ids(rest), listed);
    }
  }

  /** Filters that agree on every element select the same elements. */
  lemma {:induction false} FilterSame<T>(s: seq<T>, f: T -> bool, g: T -> bool)
    requires forall i :: 0 <= i < |s| ==> (f(s[i]) <==> g(s[i]))
    ensures Filter(s, f) == Filter(s, g)
  {
    if s != [] {
      FilterSame(s[1..], f, g);
    }
  }

  lemma {:induction false} NothingPasses(offers: seq<Offer>)
    ensures Filter(offers, (o: Offer) => false) == []
  {
    if offers != [] {
      NothingPasses(offers[1..]);
    }
  }

  // ---------------------------------------------------------------------
  // Revenue windows

  /** With non-negative amounts the windows nest: what was paid today is
      part of this week's and this month's revenue, and both are part of the
      total. A payment dated today is always inside both windows. */
  lemma RevenueWindowsNest(companies: seq<Company>, users: seq<User>, offers: seq<Offer>,
                           payments: seq<Payment>, utcNow: DateTime)
    requires forall i :: 0 <= i < |payments| ==> payments[i].amount >= 0
    ensures var d := BuildDashboard(companies, users, offers, payments, utcNow);
      0 <= d.revenueToday <= d.revenueThisWeek <= d.revenueTotal
    ensures var d := BuildDashboard(companies, users, offers, payments, utcNow);
      d.revenueToday <= d.revenueThisMonth <= d.revenueTotal
  {
    var today := DayNumber(utcNow);
    SumFilterMonotone(payments, Amount, PaidToday(today), PaidSince(StartOfWeek(today)));
    SumFilterMonotone(payments, Amount, PaidToday(today), PaidSince(StartOfMonth(utcNow)));
  }

  /** On a Sunday the week window opens today; on the first of the month
      the month window does. */
  lemma WindowsOpeningToday(utcNow: DateTime)
    ensures DayOfWeek(DayNumber(utcNow)) == 0 ==> StartOfWeek(DayNumber(utcNow)) == DayNumber(utcNow)
    ensures utcNow.day == 1 ==> StartOfMonth(utcNow) == DayNumber(utcNow)
  {
  }

  /** The windows as dates: a payment counts for today exactly when it is
      dated today, and for the month exactly when its date is not before
      the first of this month. */
  lemma WindowsByDate(p: Payment, utcNow: DateTime)
    ensures PaidToday(DayNumber(utcNow))(p) <==> SameDate(p.paidAt, utcNow)
    ensures PaidSince(StartOfMonth(utcNow))(p)
      <==> !DateBefore(p.paidAt, Stamp(utcNow.year, utcNow.month, 1, 0))
  {
    var first: DateTime := Stamp(utcNow.year, utcNow.month, 1, 0);
    DayNumberOrdersDates(p.paidAt, utcNow);
    DayNumberOrdersDates(p.paidAt, first);
  }

  // ---------------------------------------------------------------------
  // Operations

  /** `GetDashboardAsync`: reads the companies (with their users and
      offers) and the payments, and changes nothing. `companies`, `users`,
      `offers` and `payments` are the rows as loaded, each row once. Every
      company is summarised, with its name and plan as stored and the
      number of offers and users the tables hold for it; the plan counts
      are the numbers of companies on each plan. */
  method GetDashboard(db: Db, utcNow: DateTime)
    returns (d: Dashboard, ghost companies: seq<Company>, ghost users: seq<User>,
             ghost offers: seq<Offer>, ghost payments: seq<Payment>)
    requires db.Valid()
    ensures forall c :: c in companies <==> c in db.companies.Values
    ensures forall u :: u in users <==> u in db.users.Values
    ensures forall o :: o in offers <==> o in db.offers.Values
    ensures forall p :: p in payments <==> p in db.payments.Values
    ensures |companies| == |db.companies| && |users| == |db.users|
    ensures |offers| == |db.offers| && |payments| == |db.payments|
    ensures d == BuildDashboard(companies, users, offers, payments, utcNow)
    ensures |d.companies| == d.totalCompanies == |db.companies|
    ensures forall i :: 0 <= i < |d.companies| ==>
      && d.companies[i].id in db.companies
      && d.companies[i].name == db.companies[d.companies[i].id].name
      && d.companies[i].plan == db.companies[d.companies[i].id].plan
      && d.companies[i].offerCount == |KeysWhere(db.offers, OffersOf(d.companies[i].id))|
      && d.companies[i].userCount == |KeysWhere(db.users, UsersOf(d.companies[i].id))|
    ensures forall id :: id in db.companies ==> exists i :: 0 <= i < |d.companies| && d.companies[i].id == id
    ensures d.proCompanies == |KeysWhere(db.companies, OnPlan(Pro))|
    ensures d.freeCompanies == |KeysWhere(db.companies, OnPlan(Free))|
  {
    var cs := SelectWhere(db.companies, (c: Company) => true);
    var us := SelectWhere(db.users, (u: User) => true);
    var os := SelectWhere(db.offers, (o: Offer) => true);
    var ps := SelectWhere(db.payments, (p: Payment) => true);
    AllKeys(db.companies, (c: Company) => true);
    AllKeys(db.users, (u: User) => true);
    AllKeys(db.offers, (o: Offer) => true);
    AllKeys(db.payments, (p: Payment) => true);
    TablesInjective(db);
    d := BuildDashboard(cs, us, os, ps, utcNow);
    DashboardMatchesTables(db, cs, us, os, d);
    FilterCountIsKeyCount(db.companies, cs, OnPlan(Pro));
    FilterCountIsKeyCount(db.companies, cs, OnPlan(Free));
    companies, users, offers, payments := cs, us, os, ps;
  }

  /** Summaries built from listings that hold each row once describe the
      stored companies, with the counts of their rows in the tables. */
  lemma DashboardMatchesTables(db: Db, cs: seq<Company>, us: seq<User>, os: seq<Offer>, d: Dashboard)
    requires db.Valid()
    requires Distinct(cs) && Distinct(us) && Distinct(os)
    requires forall c :: c in cs <==> c in db.companies.Values
    requires forall u :: u in us <==> u in db.users.Values
    requires forall o :: o in os <==> o in db.offers.Values
    requires |d.companies| == |cs|
    requires forall i :: 0 <= i < |cs| ==> d.companies[i] == Summarize(cs[i], us, os)
    ensures forall i :: 0 <= i < |d.companies| ==>
      && d.companies[i].id in db.companies
      && d.companies[i].name == db.companies[d.companies[i].id].name
      && d.companies[i].plan == db.companies[d.companies[i].id].plan
      && d.companies[i].offerCount == |KeysWhere(db.offers, OffersOf(d.companies[i].id))|
      && d.companies[i].userCount == |KeysWhere(db.users, UsersOf(d.companies[i].id))|
    ensures forall id :: id in db.companies ==> exists i :: 0 <= i < |d.companies| && d.companies[i].id == id
  {
    TablesInjective(db);
    forall i | 0 <= i < |d.companies|
      ensures d.companies[i].id in db.companies
      ensures d.companies[i].name == db.companies[d.companies[i].id].name
      ensures d.companies[i].plan == db.companies[d.companies[i].id].plan
      ensures d.companies[i].offerCount == |KeysWhere(db.offers, OffersOf(d.companies[i].id))|
      ensures d.companies[i].userCount == |KeysWhere(db.users, UsersOf(d.companies[i].id))|
    {
      StoredUnderOwnId(db, cs[i]);
      FilterCountIsKeyCount(db.offers, os, OffersOf(cs[i].id));
      FilterCountIsKeyCount(db.users, us, UsersOf(cs[i].id));
    }
    forall id | id in db.companies ensures exists i :: 0 <= i < |d.companies| && d.companies[i].id == id {
      assert db.companies[id] in db.companies.Values;
      var i :| 0 <= i < |cs| && cs[i] == db.companies[id];
      assert d.companies[i].id == id;
    }
  }

  /** A stored company is stored under its own id. */
  lemma StoredUnderOwnId(db: Db, c: Company)
    requires db.Valid() && c in db.companies.Values
    ensures c.id in db.companies && db.companies[c.id] == c
  {
    var k := KeyOf(db.companies, c);
  }

  /** Every table of a valid database stores each row under the row's own
      id, so no two keys hold the same row. */
  lemma TablesInjective(db: Db)
    requires db.Valid()
    ensures Injective(db.companies) && Injective(db.users)
    ensures Injective(db.offers) && Injective(db.payments)
  {
    forall j, k | j in db.companies && k in db.companies && db.companies[j] == db.companies[k] ensures j == k {
      assert db.companies[j].id == j && db.companies[k].id == k;
    }
    forall j, k | j in db.users && k in db.users && db.users[j] == db.users[k] ensures j == k {
      assert db.users[j].id == j && db.users[k].id == k;
    }
    forall j, k | j in db.offers && k in db.offers && db.offers[j] == db.offers[k] ensures j == k {
      assert db.offers[j].id == j && db.offers[k].id == k;
    }
    forall j, k | j in db.payments && k in db.payments && db.payments[j] == db.payments[k] ensures j == k {
      assert db.payments[j].id == j && db.payments[k].id == k;
    }
  }

  /** A test every row passes selects every key. */
  lemma AllKeys<K, V>(m: map<K, V>, keep: V -> bool)
    requires forall v :: keep(v)
    ensures KeysWhere(m, keep) == m.Keys
  {
  }

  /** `UpgradeCompanyAsync`: the company service's upgrade, unchanged. */
  method UpgradeCompany(db: Db, companyId: int, request: UpgradeRequest, utcNow: DateTime)
    returns (updated: Option<Company>)
    requires db.Valid()
    modifies db`companies, db`payments, db`nextPaymentId
    ensures db.Valid()
    ensures updated.None? <==> companyId !in old(db.companies)
    ensures updated.None? ==>
      db.companies == old(db.companies) && db.payments == old(db.payments) && db.nextPaymentId == old(db.nextPaymentId)
    ensures updated.Some? ==>
      && updated.value == Renew(old(db.companies)[companyId], utcNow).(plan := request.plan)
      && db.companies == old(db.companies)[companyId := updated.value]
      && db.payments == old(db.payments)[old(db.nextPaymentId) :=
           Payment(old(db.nextPaymentId), companyId, request.amount, utcNow, request.transactionId)]
      && db.nextPaymentId == old(db.nextPaymentId) + 1
  {
    updated := UpgradePlan(db, companyId, request, utcNow);
  }
}
