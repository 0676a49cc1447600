/** The directory application's views: the two listing searches, the two
    create views, `suggest_match` and `match_list`. The GET parameters are
    strings, `""` when absent (the views' `request.GET.get(name, '')`). */
module DirectoryViews {
  import opened Common
  import opened Text
  import opened DirectoryModels

  // ---------------------------------------------------------------------
  // Lookups by row id
  // ---------------------------------------------------------------------

  /** `get_object_or_404(SurplusListing, pk=id)`: the row with that id, if any. */
  function FindSurplus(ss: seq<Surplus>, id: nat): (r: Option<Surplus>)
    ensures r.Some? <==> id in SurplusIds(ss)
    ensures r.Some? ==> r.value in ss && r.value.id == id
    decreases |ss|
  {
    if ss == [] then None
    else if ss[0].id == id then Some(ss[0])
    else
      var r := FindSurplus(ss[1..], id);
      assert SurplusIds(ss) == {ss[0].id} + SurplusIds(ss[1..]) by {
        assert ss == [ss[0]] + ss[1..];
      }
      r
  }

  /** `get_object_or_404(DemandListing, pk=id)`: the row with that id, if any. */
  function FindDemand(ds: seq<Demand>, id: nat): (r: Option<Demand>)
    ensures r.Some? <==> id in DemandIds(ds)
    ensures r.Some? ==> r.value in ds && r.value.id == id
    decreases |ds|
  {
    if ds == [] then None
    else if ds[0].id == id then Some(ds[0])
    else
      var r := FindDemand(ds[1..], id);
      assert DemandIds(ds) == {ds[0].id} + DemandIds(ds[1..]) by {
        assert ds == [ds[0]] + ds[1..];
      }
      r
  }

  /** With unique ids, the lookup finds exactly the row that has the id. */
  lemma {:induction false} FindSurplusUnique(ss: seq<Surplus>, x: Surplus)
    requires Pairwise(ss, SurplusIdsDiffer) && x in ss
    ensures FindSurplus(ss, x.id) == Some(x)
    decreases |ss|
  {
    if ss[0] != x {
      var t := ss[1..];
      assert x in t;
      assert Pairwise(t, SurplusIdsDiffer) by {
        forall i, j | 0 <= i < j < |t| ensures SurplusIdsDiffer(t[i], t[j]) {
          assert t[i] == ss[i + 1] && t[j] == ss[j + 1];
        }
      }
      var k :| 0 <= k < |t| && t[k] == x;
      assert SurplusIdsDiffer(ss[0], ss[k + 1]);
      FindSurplusUnique(t, x);
    }
  }

  lemma {:induction false} FindDemandUnique(ds: seq<Demand>, x: Demand)
    requires Pairwise(ds, DemandIdsDiffer) && x in ds
    ensures FindDemand(ds, x.id) == Some(x)
    decreases |ds|
  {
    if ds[0] != x {
      var t := ds[1..];
      assert x in t;
      assert Pairwise(t, DemandIdsDiffer) by {
        forall i, j | 0 <= i < j < |t| ensures DemandIdsDiffer(t[i], t[j]) {
          assert t[i] == ds[i + 1] && t[j] == ds[j + 1];
        }
      }
      var k :| 0 <= k < |t| && t[k] == x;
      assert DemandIdsDiffer(ds[0], ds[k + 1]);
      FindDemandUnique(t, x);
    }
  }

  // ---------------------------------------------------------------------
  // surplus_list
  // ---------------------------------------------------------------------

  predicate SurplusOwnedBy(user: nat, x: Surplus) { x.owner == user }

  /** `Q(company__icontains=q) | Q(material_type__icontains=q)`. */
  predicate SurplusMatchesQuery(q: string, lower: string -> string, x: Surplus) {
    IContains(x.company, q, lower) || IContains(MaterialValue(x.materialType), q, lower)
  }

  predicate SurplusOfMaterial(materialType: string, x: Surplus) { MaterialValue(x.materialType) == materialType }
  predicate SurplusNear(location: string, lower: string -> string, x: Surplus) { IContains(x.location, location, lower) }

  /** The material and location narrowing that follows the text search. */
  function NarrowSurpluses(ss: seq<Surplus>, materialType: string, location: string, lower: string -> string)
    : (r: seq<Surplus>)
    ensures IsSubsequence(r, ss)
    ensures forall x :: x in r <==>
      && x in ss
      && (materialType != "" ==> MaterialValue(x.materialType) == materialType)
      && (location != "" ==> IContains(x.location, location, lower))
  {
    var typed := if materialType != "" then Filter(ss, x => SurplusOfMaterial(materialType, x)) else ss;
    var placed := if location != "" then Filter(typed, x => SurplusNear(location, lower, x)) else typed;
    FilterMembers(ss, x => SurplusOfMaterial(materialType, x));
    FilterMembers(typed, x => SurplusNear(location, lower, x));
    FilterIsSubsequence(ss, x => SurplusOfMaterial(materialType, x));
    FilterIsSubsequence(typed, x => SurplusNear(location, lower, x));
    SubsequenceReflexive(ss);
    SubsequenceReflexive(typed);
    SubsequenceTransitive(placed, typed, ss);
    placed
  }

  /** `surplus_list`: the requester's surplus listings, narrowed by each
      non-empty parameter, in table order. */
  function SurplusList(ss: seq<Surplus>, user: nat, q: string, materialType: string, location: string,
                       lower: string -> string): (r: seq<Surplus>)
    ensures IsSubsequence(r, ss)
    ensures forall x :: x in r <==>
      && x in ss && x.owner == user
      && (q != "" ==> IContains(x.company, q, lower) || IContains(MaterialValue(x.materialType), q, lower))
      && (materialType != "" ==> MaterialValue(x.materialType) == materialType)
      && (location != "" ==> IContains(x.location, location, lower))
  {
    var mine := Filter(ss, x => SurplusOwnedBy(user, x));
    var searched := if q != "" then Filter(mine, x => SurplusMatchesQuery(q, lower, x)) else mine;
    FilterMembers(ss, x => SurplusOwnedBy(user, x));
    FilterMembers(mine, x => SurplusMatchesQuery(q, lower, x));
    FilterIsSubsequence(ss, x => SurplusOwnedBy(user, x));
    FilterIsSubsequence(mine, x => SurplusMatchesQuery(q, lower, x));
    SubsequenceReflexive(mine);
    SubsequenceTransitive(searched, mine, ss);
    var r := NarrowSurpluses(searched, materialType, location, lower);
    SubsequenceTransitive(r, searched, ss);
    r
  }

  /** With every parameter empty the search is just the requester's listings. */
  lemma SurplusListUnfiltered(ss: seq<Surplus>, user: nat, lower: string -> string)
    ensures SurplusList(ss, user, "", "", "", lower) == Filter(ss, x => SurplusOwnedBy(user, x))
  {
  }

  // ---------------------------------------------------------------------
  // demand_list
  // ---------------------------------------------------------------------

  /** The text columns of `DemandListing` a lookup keyword can name. */
  datatype DemandColumn = Organisation | Location | MaterialWanted | IntendedUse

  /** Resolving a lookup keyword against the text columns of `DemandListing`
      (`None` when the keyword names none of them). Django also resolves the
      non-text fields (`id`, `user`, `approved`, ...), which no lookup of the
      modelled views names; every keyword those views use that is not a
      field at all, such as `org`, is a `FieldError` in Django too. */
  function ResolveDemandColumn(keyword: string): (r: Option<DemandColumn>)
    ensures keyword == "organisation" ==> r == Some(Organisation)
    ensures keyword == "material_wanted" ==> r == Some(MaterialWanted)
  {
    if keyword == "organisation" then Some(Organisation)
    else if keyword == "location" then Some(Location)
    else if keyword == "material_wanted" then Some(MaterialWanted)
    else if keyword == "intended_use" then Some(IntendedUse)
    else None
  }

  /** The stored value of a column; `None` is SQL NULL. */
  function DemandColumnValue(c: DemandColumn, d: Demand): Option<string> {
    match c
    case Organisation => d.organisation
    case Location => Some(d.location)
    case MaterialWanted => Some(MaterialValue(d.materialWanted))
    case IntendedUse => d.intendedUse
  }

  /** `column__icontains=q`; a NULL column matches nothing. */
  predicate ColumnContains(v: Option<string>, q: string, lower: string -> string) {
    v.Some? && IContains(v.value, q, lower)
  }

  predicate DemandOwnedBy(user: nat, x: Demand) { x.owner == user }

  /** `Q(organisation__icontains=q) | Q(material_wanted__icontains=q)`. */
  predicate DemandMatchesQuery(q: string, lower: string -> string, x: Demand) {
    ColumnContains(x.organisation, q, lower) || IContains(MaterialValue(x.materialWanted), q, lower)
  }

  predicate DemandOfMaterial(materialWanted: string, x: Demand) { MaterialValue(x.materialWanted) == materialWanted }
  predicate DemandNear(location: string, lower: string -> string, x: Demand) { IContains(x.location, location, lower) }

  /** The material and location narrowing that follows the text search. */
  function NarrowDemands(ds: seq<Demand>, materialWanted: string, location: string, lower: string -> string)
    : (r: seq<Demand>)
    ensures IsSubsequence(r, ds)
    ensures forall x :: x in r <==>
      && x in ds
      && (materialWanted != "" ==> MaterialValue(x.materialWanted) == materialWanted)
      && (location != "" ==> IContains(x.location, location, lower))
  {
    var typed := if materialWanted != "" then Filter(ds, x => DemandOfMaterial(materialWanted, x)) else ds;
    var placed := if location != "" then Filter(typed, x => DemandNear(location, lower, x)) else typed;
    FilterMembers(ds, x => DemandOfMaterial(materialWanted, x));
    FilterMembers(typed, x => DemandNear(location, lower, x));
    FilterIsSubsequence(ds, x => DemandOfMaterial(materialWanted, x));
    FilterIsSubsequence(typed, x => DemandNear(location, lower, x));
    SubsequenceReflexive(ds);
    SubsequenceReflexive(typed);
    SubsequenceTransitive(placed, typed, ds);
    placed
  }

  /** `demand_list` searching the organisation column: the requester's demand
      listings, narrowed by each non-empty parameter, in table order. */
  function DemandList(ds: seq<Demand>, user: nat, q: string, materialWanted: string, location: string,
                      lower: string -> string): (r: seq<Demand>)
    ensures IsSubsequence(r, ds)
    ensures forall x :: x in r <==>
      && x in ds && x.owner == user
      && (q != "" ==> ColumnContains(x.organisation, q, lower) || IContains(MaterialValue(x.materialWanted), q, lower))
      && (materialWanted != "" ==> MaterialValue(x.materialWanted) == materialWanted)
      && (location != "" ==> IContains(x.location, location, lower))
  {
    var mine := Filter(ds, x => DemandOwnedBy(user, x));
    var searched := if q != "" then Filter(mine, x => DemandMatchesQuery(q, lower, x)) else mine;
    FilterMembers(ds, x => DemandOwnedBy(user, x));
    FilterMembers(mine, x => DemandMatchesQuery(q, lower, x));
    FilterIsSubsequence(ds, x => DemandOwnedBy(user, x));
    FilterIsSubsequence(mine, x => DemandMatchesQuery(q, lower, x));
    SubsequenceReflexive(mine);
    SubsequenceTransitive(searched, mine, ds);
    var r := NarrowDemands(searched, materialWanted, location, lower);
    SubsequenceTransitive(r, searched, ds);
    r
  }

  /** `demand_list` with the organisation keyword of its `Q` object as a
      parameter: the keyword is resolved, and an unknown one raises, as soon
      as the search filter is built, that is whenever `q` is non-empty. */
  function DemandListWith(keyword: string, ds: seq<Demand>, user: nat, q: string, materialWanted: string,
                          location: string, lower: string -> string): (r: Result<seq<Demand>>)
    ensures q == "" ==> r == Success(DemandList(ds, user, q, materialWanted, location, lower))
    ensures q != "" && ResolveDemandColumn(keyword).None? ==> r.Failure?
  {
    var mine := Filter(ds, x => DemandOwnedBy(user, x));
    if q == "" then Success(NarrowDemands(mine, materialWanted, location, lower))
    else
      match ResolveDemandColumn(keyword)
      case None => Failure("FieldError: Cannot resolve keyword '" + keyword + "' into field.")
      case Some(c) =>
        var searched := Filter(mine, x => ColumnContains(DemandColumnValue(c, x), q, lower)
          || IContains(MaterialValue(x.materialWanted), q, lower));
        Success(NarrowDemands(searched, materialWanted, location, lower))
  }

  /** `demand_list` as written: its search filter names `org`, which is not a
      field of `DemandListing` (the column is `organisation`). */
  function DemandListAsWritten(ds: seq<Demand>, user: nat, q: string, materialWanted: string, location: string,
                               lower: string -> string): (r: Result<seq<Demand>>)
    ensures q == "" ==> r == Success(DemandList(ds, user, q, materialWanted, location, lower))
  {
    DemandListWith("org", ds, user, q, materialWanted, location, lower)
  }

  /** As written, every non-empty search fails, for every user and every
      table, even one with no listings; without a search it lists what the
      corrected view lists. */
  lemma DemandListAsWrittenFails(ds: seq<Demand>, user: nat, q: string, materialWanted: string, location: string,
                                 lower: string -> string)
    ensures q != "" <==> DemandListAsWritten(ds, user, q, materialWanted, location, lower).Failure?
  {
    assert ResolveDemandColumn("org") == None;
  }

  /** Searching the `organisation` keyword is the corrected `demand_list`. */
  lemma DemandListCorrected(ds: seq<Demand>, user: nat, q: string, materialWanted: string, location: string,
                            lower: string -> string)
    ensures DemandListWith("organisation", ds, user, q, materialWanted, location, lower)
      == Success(DemandList(ds, user, q, materialWanted, location, lower))
  {
    if q != "" {
      var mine := Filter(ds, x => DemandOwnedBy(user, x));
      var viaKeyword := Filter(mine, x => ColumnContains(DemandColumnValue(Organisation, x), q, lower)
        || IContains(MaterialValue(x.materialWanted), q, lower));
      assert viaKeyword == Filter(mine, x => DemandMatchesQuery(q, lower, x)) by {
        FilterSame(mine, x => ColumnContains(DemandColumnValue(Organisation, x), q, lower)
          || IContains(MaterialValue(x.materialWanted), q, lower), x => DemandMatchesQuery(q, lower, x));
      }
    }
  }

  // ---------------------------------------------------------------------
  // match_list
  // ---------------------------------------------------------------------

  /** `Q(surplus__user=user) | Q(demand__user=user)`: the user owns the
      match's surplus or its demand. */
  predicate TouchesUser(ss: seq<Surplus>, ds: seq<Demand>, user: nat, m: Match) {
    (FindSurplus(ss, m.surplus).Some? && FindSurplus(ss, m.surplus).value.owner == user)
    || (FindDemand(ds, m.demand).Some? && FindDemand(ds, m.demand).value.owner == user)
  }

  /** `match_list`: all matches for staff; for anyone else exactly the matches
      on one of their own listings, in table order. The staff flag is read
      from the requester's account (`request.user.is_staff`). */
  function MatchList(ms: seq<Match>, ss: seq<Surplus>, ds: seq<Demand>, users: map<nat, Account>, user: nat)
    : (r: seq<Match>)
    requires user in users
    ensures users[user].isStaff ==> r == ms
    ensures IsSubsequence(r, ms)
    ensures !users[user].isStaff ==> forall m :: m in r <==> m in ms && TouchesUser(ss, ds, user, m)
  {
    if users[user].isStaff then
      SubsequenceReflexive(ms);
      ms
    else
      FilterMembers(ms, m => TouchesUser(ss, ds, user, m));
      FilterIsSubsequence(ms, m => TouchesUser(ss, ds, user, m));
      Filter(ms, m => TouchesUser(ss, ds, user, m))
  }

  /** In a valid store, a non-staff user sees a match exactly when the
      match's surplus or demand is a listing of theirs. */
  lemma MatchListVisibility(store: Store, user: nat, m: Match)
    requires store.Valid() && m in store.matches
    requires user in store.users && !store.users[user].isStaff
    ensures m in MatchList(store.matches, store.surpluses, store.demands, store.users, user) <==>
      (exists x :: x in store.surpluses && x.id == m.surplus && x.owner == user)
      || (exists y :: y in store.demands && y.id == m.demand && y.owner == user)
  {
    var x :| x in store.surpluses && x.id == m.surplus;
    var y :| y in store.demands && y.id == m.demand;
    FindSurplusUnique(store.surpluses, x);
    FindDemandUnique(store.demands, y);
    forall x' | x' in store.surpluses && x'.id == m.surplus ensures x' == x {
      FindSurplusUnique(store.surpluses, x');
    }
    forall y' | y' in store.demands && y'.id == m.demand ensures y' == y {
      FindDemandUnique(store.demands, y');
    }
  }

  // ---------------------------------------------------------------------
  // surplus_create, demand_create
  // ---------------------------------------------------------------------

  /** `surplus_create`: a POST whose form validates (`form` is its cleaned
      data) inserts a listing owned by the requester and redirects; anything
      else changes nothing and renders the form. The form has no `user`
      field, so whatever user value the POST carries (`postedUser`) is
      ignored: the method never reads it, and the owner is `requester`. */
  method SurplusCreate(store: Store, requester: nat, isPost: bool, form: Option<SurplusForm>, postedUser: Option<nat>)
    returns (response: Response)
    requires store.Valid() && requester in store.users
    modifies store
    ensures store.Valid()
    ensures isPost && form.Some? ==>
      && response == Redirect("surplus_list")
      && store.surpluses == [Surplus(old(store.nextSurplusId), requester, form.value.company, form.value.location,
           form.value.materialType, form.value.description, form.value.isFoodSafe, form.value.contactEmail,
           form.value.approved)] + old(store.surpluses)
      && store.surpluses[0].owner == requester
      && store.demands == old(store.demands) && store.matches == old(store.matches) && store.users == old(store.users)
      && store.nextSurplusId == old(store.nextSurplusId) + 1
      && store.nextDemandId == old(store.nextDemandId) && store.nextMatchId == old(store.nextMatchId)
    ensures !(isPost && form.Some?) ==> response == Render("directory/surplus_form.html") && unchanged(store)
  {
    if isPost && form.Some? {
      var _ := store.CreateSurplus(requester, form.value);
      return Redirect("surplus_list");
    }
    return Render("directory/surplus_form.html");
  }

  /** `demand_create`, the same for demand listings; `postedUser` is again
      never read. */
  method DemandCreate(store: Store, requester: nat, isPost: bool, form: Option<DemandForm>, postedUser: Option<nat>)
    returns (response: Response)
    requires store.Valid() && requester in store.users
    modifies store
    ensures store.Valid()
    ensures isPost && form.Some? ==>
      && response == Redirect("demand_list")
      && store.demands == [Demand(old(store.nextDemandId), requester, form.value.organisation, form.value.location,
           form.value.materialWanted, form.value.intendedUse, form.value.approved)] + old(store.demands)
      && store.demands[0].owner == requester
      && store.surpluses == old(store.surpluses) && store.matches == old(store.matches) && store.users == old(store.users)
      && store.nextDemandId == old(store.nextDemandId) + 1
      && store.nextSurplusId == old(store.nextSurplusId) && store.nextMatchId == old(store.nextMatchId)
    ensures !(isPost && form.Some?) ==> response == Render("directory/demand_form.html") && unchanged(store)
  {
    if isPost && form.Some? {
      var _ := store.CreateDemand(requester, form.value);
      return Redirect("demand_list");
    }
    return Render("directory/demand_form.html");
  }

  // ---------------------------------------------------------------------
  // suggest_match
  // ---------------------------------------------------------------------

  /** Reading a text attribute of a demand listing. Only the text columns are
      modelled; a name that is none of them is an `AttributeError`, which is
      what Django raises for a name such as `org` that is no attribute at
      all (the non-text fields, which the view does not read, are not
      modelled). */
  function DemandAttribute(d: Demand, name: string): (r: Result<Option<string>>)
    ensures name == "organisation" ==> r == Success(d.organisation)
  {
    match ResolveDemandColumn(name)
    case None => Failure("AttributeError: 'DemandListing' object has no attribute '" + name + "'")
    case Some(c) => Success(DemandColumnValue(c, d))
  }

  /** The notification of a new match, naming the demand's organisation
      through the attribute `attribute`; it goes to the surplus's contact
      address and to the email of the demand's owner. */
  function MatchNoticeWith(attribute: string, s: Surplus, d: Demand, ownerEmail: string, sender: string)
    : (r: Result<Mail>)
    ensures r.Success? <==> DemandAttribute(d, attribute).Success?
    ensures r.Success? ==> r.value.recipients == [s.contactEmail, ownerEmail] && r.value.sender == sender
  {
    match DemandAttribute(d, attribute)
    case Failure(e) => Failure(e)
    case Success(org) =>
      Success(Mail(
        "Call Soso: Potential Match Found!",
        "A match has been suggested between surplus from " + s.company + " and demand from " + Show(org) + ".",
        sender,
        [s.contactEmail, ownerEmail]))
  }

  /** The notification as written: it reads `demand.org`. */
  function MatchNoticeAsWritten(s: Surplus, d: Demand, ownerEmail: string, sender: string): (r: Result<Mail>)
    ensures r.Failure?
  {
    assert ResolveDemandColumn("org") == None;
    MatchNoticeWith("org", s, d, ownerEmail, sender)
  }

  /** The notification reading `demand.organisation`; a missing organisation
      prints as "None". */
  function MatchNotice(s: Surplus, d: Demand, ownerEmail: string, sender: string): (r: Mail)
    ensures r.recipients == [s.contactEmail, ownerEmail] && r.sender == sender
    ensures r.subject == "Call Soso: Potential Match Found!"
    ensures r.body == "A match has been suggested between surplus from " + s.company
      + " and demand from " + Show(d.organisation) + "."
  {
    var notice := MatchNoticeWith("organisation", s, d, ownerEmail, sender);
    assert notice.Success?;
    notice.value
  }

  /** `suggest_match`: a missing surplus or demand is a 404 and changes
      nothing; a pair that already has a match fails the uniqueness constraint
      (a 500) and changes nothing; otherwise the store gains exactly one
      match, suggested by the requester, the notification is sent, and the
      view redirects to the match list. */
  method SuggestMatch(store: Store, requester: nat, surplusId: nat, demandId: nat, sender: string)
    returns (response: Response, mail: Option<Mail>)
    requires store.Valid() && requester in store.users
    modifies store
    ensures store.Valid()
    ensures surplusId !in SurplusIds(old(store.surpluses)) || demandId !in DemandIds(old(store.demands)) ==>
      response == NotFound && mail.None? && unchanged(store)
    ensures (surplusId in SurplusIds(old(store.surpluses)) && demandId in DemandIds(old(store.demands))
        && exists m :: m in old(store.matches) && m.surplus == surplusId && m.demand == demandId) ==>
      && response == ServerError("IntegrityError") && mail.None?
      && store.matches == old(store.matches) && store.nextMatchId == old(store.nextMatchId)
    ensures (surplusId in SurplusIds(old(store.surpluses)) && demandId in DemandIds(old(store.demands))
        && !exists m :: m in old(store.matches) && m.surplus == surplusId && m.demand == demandId) ==>
      && response == Redirect("match_list")
      && store.matches == [Match(old(store.nextMatchId), surplusId, demandId, Some(requester), None)] + old(store.matches)
      && mail.Some?
      && mail.value == MatchNotice(FindSurplus(old(store.surpluses), surplusId).value,
           FindDemand(old(store.demands), demandId).value,
           old(store.users)[FindDemand(old(store.demands), demandId).value.owner].email, sender)
      && mail.value.recipients == [FindSurplus(old(store.surpluses), surplusId).value.contactEmail,
           old(store.users)[FindDemand(old(store.demands), demandId).value.owner].email]
    ensures store.users == old(store.users) && store.surpluses == old(store.surpluses) && store.demands == old(store.demands)
    ensures store.nextSurplusId == old(store.nextSurplusId) && store.nextDemandId == old(store.nextDemandId)
  {
    var surplus := FindSurplus(store.surpluses, surplusId);
    if surplus.None? {
      return NotFound, None;
    }
    var demand := FindDemand(store.demands, demandId);
    if demand.None? {
      return NotFound, None;
    }
    var ownerEmail := store.users[demand.value.owner].email;
    var created := store.CreateMatch(surplusId, demandId, Some(requester));
    if created.None? {
      return ServerError("IntegrityError"), None;
    }
    return Redirect("match_list"), Some(MatchNotice(surplus.value, demand.value, ownerEmail, sender));
  }

  /** `suggest_match` as written: the lookups and the insert are as in
      `SuggestMatch`, but the notice then reads `demand.org`. The
      `AttributeError` is raised while the arguments of `send_mail` are
      evaluated, so no mail goes out, the request ends in a server error,
      and, with no transaction around the view, the new match stays stored. */
  method SuggestMatchAsWritten(store: Store, requester: nat, surplusId: nat, demandId: nat, sender: string)
    returns (response: Response, mail: Option<Mail>)
    requires store.Valid() && requester in store.users
    modifies store
    ensures store.Valid()
    ensures surplusId !in SurplusIds(old(store.surpluses)) || demandId !in DemandIds(old(store.demands)) ==>
      response == NotFound && mail.None? && unchanged(store)
    ensures (surplusId in SurplusIds(old(store.surpluses)) && demandId in DemandIds(old(store.demands))
        && exists m :: m in old(store.matches) && m.surplus == surplusId && m.demand == demandId) ==>
      && response == ServerError("IntegrityError") && mail.None?
      && store.matches == old(store.matches) && store.nextMatchId == old(store.nextMatchId)
    ensures (surplusId in SurplusIds(old(store.surpluses)) && demandId in DemandIds(old(store.demands))
        && !exists m :: m in old(store.matches) && m.surplus == surplusId && m.demand == demandId) ==>
      && response.ServerError? && response != ServerError("IntegrityError") && mail.None?
      && store.matches == [Match(old(store.nextMatchId), surplusId, demandId, Some(requester), None)] + old(store.matches)
    ensures store.users == old(store.users) && store.surpluses == old(store.surpluses) && store.demands == old(store.demands)
    ensures store.nextSurplusId == old(store.nextSurplusId) && store.nextDemandId == old(store.nextDemandId)
  {
    var surplus := FindSurplus(store.surpluses, surplusId);
    if surplus.None? {
      return NotFound, None;
    }
    var demand := FindDemand(store.demands, demandId);
    if demand.None? {
      return NotFound, None;
    }
    var ownerEmail := store.users[demand.value.owner].email;
    var created := store.CreateMatch(surplusId, demandId, Some(requester));
    if created.None? {
      return ServerError("IntegrityError"), None;
    }
    var notice := MatchNoticeAsWritten(surplus.value, demand.value, ownerEmail, sender);
    assert notice.Failure?;
    return ServerError(notice.error), None;
  }
}
