/** The directory application's data: surplus listings, demand listings and
    the matches between them, owned by users, kept in one store whose
    invariants are the database constraints of the three models. */
module DirectoryModels {
  import opened Common
  import opened Text

  // ---------------------------------------------------------------------
  // Material choices
  // ---------------------------------------------------------------------

  /** `MATERIAL_CHOICES`, the one list both listing kinds draw from: a
      surplus's `material_type` and a demand's `material_wanted` have this
      same type. */
  datatype Material = Wood | Metal | Textiles | Plastic | Foam | Cardboard | Food | OtherMaterial

  /** The stored value of a choice. */
  function MaterialValue(m: Material): string {
    match m
    case Wood => "wood"
    case Metal => "metal"
    case Textiles => "textiles"
    case Plastic => "plastic"
    case Foam => "foam"
    case Cardboard => "cardboard"
    case Food => "food"
    case OtherMaterial => "other"
  }

  /** The field's choice validation: a submitted value is accepted exactly
      when it is the stored value of one of the eight choices. */
  function ParseMaterial(s: string): (r: Option<Material>)
    ensures r.Some? ==> MaterialValue(r.value) == s
    ensures r.None? ==> forall m: Material :: MaterialValue(m) != s
  {
    if s == "wood" then Some(Wood)
    else if s == "metal" then Some(Metal)
    else if s == "textiles" then Some(Textiles)
    else if s == "plastic" then Some(Plastic)
    else if s == "foam" then Some(Foam)
    else if s == "cardboard" then Some(Cardboard)
    else if s == "food" then Some(Food)
    else if s == "other" then Some(OtherMaterial)
    else None
  }

  /** Every choice reads back as itself, so distinct choices are stored
      differently. */
  lemma ParseMaterialValue(m: Material)
    ensures ParseMaterial(MaterialValue(m)) == Some(m)
  {
    match m
    case Wood =>
    case Metal =>
    case Textiles =>
    case Plastic =>
    case Foam =>
    case Cardboard =>
    case Food =>
    case OtherMaterial =>
  }

  // ---------------------------------------------------------------------
  // Rows
  // ---------------------------------------------------------------------

  /** A user of the auth application, as the directory reads it. */
  datatype Account = Account(username: string, email: string, isStaff: bool)

  /** A `SurplusListing` row; `owner` is the `user` foreign key. */
  datatype Surplus = Surplus(
    id: nat,
    owner: nat,
    company: string,
    location: string,
    materialType: Material,
    description: string,
    isFoodSafe: bool,
    contactEmail: string,
    approved: bool)

  /** A `DemandListing` row; `organisation` and `intendedUse` are nullable. */
  datatype Demand = Demand(
    id: nat,
    owner: nat,
    organisation: Option<string>,
    location: string,
    materialWanted: Material,
    intendedUse: Option<string>,
    approved: bool)

  /** A `Match` row; `suggestedBy` is the nullable `suggested_by` key. */
  datatype Match = Match(id: nat, surplus: nat, demand: nat, suggestedBy: Option<nat>, notes: Option<string>)

  predicate SurplusIdsDiffer(a: Surplus, b: Surplus) { a.id != b.id }
  predicate DemandIdsDiffer(a: Demand, b: Demand) { a.id != b.id }
  predicate MatchIdsDiffer(a: Match, b: Match) { a.id != b.id }

  /** `unique_together = ("surplus", "demand")`. */
  predicate PairsDiffer(a: Match, b: Match) { a.surplus != b.surplus || a.demand != b.demand }

  function SurplusIds(ss: seq<Surplus>): set<nat> { set x | x in ss :: x.id }
  function DemandIds(ds: seq<Demand>): set<nat> { set x | x in ds :: x.id }
  function MatchIds(ms: seq<Match>): set<nat> { set x | x in ms :: x.id }

  // ---------------------------------------------------------------------
  // __str__
  // ---------------------------------------------------------------------

  /** `SurplusListing.__str__`: company, an en dash, the stored material value. */
  function SurplusLabel(s: Surplus): (r: string)
    ensures IsPrefix(s.company + " – ", r)
    ensures r[|s.company| + 3..] == MaterialValue(s.materialType)
  {
    s.company + " – " + MaterialValue(s.materialType)
  }

  /** `self.organisation or 'Anonymous'`: the organisation when it is set and
      non-empty, the fallback otherwise. */
  function OrganisationOr(o: Option<string>, fallback: string): (r: string)
    ensures Truthy(o) ==> r == o.value
    ensures !Truthy(o) ==> r == fallback
  {
    if Truthy(o) then o.value else fallback
  }

  /** `DemandListing.__str__`: says "Anonymous" when the organisation is
      missing or empty. */
  function DemandLabel(d: Demand): (r: string)
    ensures !Truthy(d.organisation) ==> r == "Anonymous needs " + MaterialValue(d.materialWanted)
    ensures Truthy(d.organisation) ==> r == d.organisation.value + " needs " + MaterialValue(d.materialWanted)
  {
    OrganisationOr(d.organisation, "Anonymous") + " needs " + MaterialValue(d.materialWanted)
  }

  /** `Match.__str__`, given the match's surplus and demand: says
      "Requester" when the demand has no organisation. */
  function MatchLabel(s: Surplus, d: Demand): (r: string)
    ensures !Truthy(d.organisation) ==> r == s.company + " → Requester"
    ensures Truthy(d.organisation) ==> r == s.company + " → " + d.organisation.value
  {
    s.company + " → " + OrganisationOr(d.organisation, "Requester")
  }

  // ---------------------------------------------------------------------
  // Cascades, as functions of the old tables
  // ---------------------------------------------------------------------

  predicate NotSurplus(id: nat, x: Surplus) { x.id != id }
  predicate NotDemand(id: nat, x: Demand) { x.id != id }
  predicate AvoidsSurplus(id: nat, m: Match) { m.surplus != id }
  predicate AvoidsDemand(id: nat, m: Match) { m.demand != id }
  predicate SurplusNotOwnedBy(uid: nat, x: Surplus) { x.owner != uid }
  predicate DemandNotOwnedBy(uid: nat, x: Demand) { x.owner != uid }

  /** The surplus table without the row of `id`. */
  function SurplusesWithout(ss: seq<Surplus>, id: nat): (r: seq<Surplus>)
    ensures IsSubsequence(r, ss)
    ensures forall x :: x in r <==> x in ss && x.id != id
  {
    FilterIsSubsequence(ss, x => NotSurplus(id, x));
    FilterMembers(ss, x => NotSurplus(id, x));
    Filter(ss, x => NotSurplus(id, x))
  }

  /** The demand table without the row of `id`. */
  function DemandsWithout(ds: seq<Demand>, id: nat): (r: seq<Demand>)
    ensures IsSubsequence(r, ds)
    ensures forall x :: x in r <==> x in ds && x.id != id
  {
    FilterIsSubsequence(ds, x => NotDemand(id, x));
    FilterMembers(ds, x => NotDemand(id, x));
    Filter(ds, x => NotDemand(id, x))
  }

  /** `on_delete=CASCADE` from a surplus: the matches that do not reference it. */
  function MatchesWithoutSurplus(ms: seq<Match>, id: nat): (r: seq<Match>)
    ensures IsSubsequence(r, ms)
    ensures forall m :: m in r <==> m in ms && m.surplus != id
  {
    FilterIsSubsequence(ms, m => AvoidsSurplus(id, m));
    FilterMembers(ms, m => AvoidsSurplus(id, m));
    Filter(ms, m => AvoidsSurplus(id, m))
  }

  /** `on_delete=CASCADE` from a demand: the matches that do not reference it. */
  function MatchesWithoutDemand(ms: seq<Match>, id: nat): (r: seq<Match>)
    ensures IsSubsequence(r, ms)
    ensures forall m :: m in r <==> m in ms && m.demand != id
  {
    FilterIsSubsequence(ms, m => AvoidsDemand(id, m));
    FilterMembers(ms, m => AvoidsDemand(id, m));
    Filter(ms, m => AvoidsDemand(id, m))
  }

  /** `on_delete=CASCADE` from a user: the surpluses they do not own. */
  function SurplusesNotOwnedBy(ss: seq<Surplus>, uid: nat): (r: seq<Surplus>)
    ensures IsSubsequence(r, ss)
    ensures forall x :: x in r <==> x in ss && x.owner != uid
  {
    FilterIsSubsequence(ss, x => SurplusNotOwnedBy(uid, x));
    FilterMembers(ss, x => SurplusNotOwnedBy(uid, x));
    Filter(ss, x => SurplusNotOwnedBy(uid, x))
  }

  /** `on_delete=CASCADE` from a user: the demands they do not own. */
  function DemandsNotOwnedBy(ds: seq<Demand>, uid: nat): (r: seq<Demand>)
    ensures IsSubsequence(r, ds)
    ensures forall x :: x in r <==> x in ds && x.owner != uid
  {
    FilterIsSubsequence(ds, x => DemandNotOwnedBy(uid, x));
    FilterMembers(ds, x => DemandNotOwnedBy(uid, x));
    Filter(ds, x => DemandNotOwnedBy(uid, x))
  }

  /** `on_delete=SET_NULL` on `suggested_by`. */
  function Unsuggest(uid: nat, m: Match): (r: Match)
    ensures r.id == m.id && r.surplus == m.surplus && r.demand == m.demand && r.notes == m.notes
    ensures r.suggestedBy == if m.suggestedBy == Some(uid) then None else m.suggestedBy
  {
    if m.suggestedBy == Some(uid) then m.(suggestedBy := None) else m
  }

  /** A match survives when its surplus and its demand are both kept. */
  predicate Survives(keptSurpluses: set<nat>, keptDemands: set<nat>, m: Match) {
    m.surplus in keptSurpluses && m.demand in keptDemands
  }

  /** The matches that survive deleting user `uid`: those whose surplus and
      demand are both still there (the survivors are `keptSurpluses` and
      `keptDemands`), in table order, with `suggested_by` cleared where it
      was `uid`. */
  function MatchesAfterUserDeleted(ms: seq<Match>, keptSurpluses: set<nat>, keptDemands: set<nat>, uid: nat): (r: seq<Match>)
    ensures |r| <= |ms|
    ensures forall i :: 0 <= i < |r| ==> r[i].suggestedBy != Some(uid)
    ensures forall i :: 0 <= i < |r| ==> r[i].surplus in keptSurpluses && r[i].demand in keptDemands
    ensures forall m :: m in ms && m.surplus in keptSurpluses && m.demand in keptDemands ==> Unsuggest(uid, m) in r
    ensures forall i :: 0 <= i < |r| ==> exists m :: m in ms && r[i] == Unsuggest(uid, m)
  {
    var kept := Filter(ms, m => Survives(keptSurpluses, keptDemands, m));
    var r := MapSeq(kept, m => Unsuggest(uid, m));
    FilterMembers(ms, m => Survives(keptSurpluses, keptDemands, m));
    forall m | m in ms && m.surplus in keptSurpluses && m.demand in keptDemands ensures Unsuggest(uid, m) in r {
      var i :| 0 <= i < |kept| && kept[i] == m;
      assert r[i] == Unsuggest(uid, m);
    }
    forall i | 0 <= i < |r| ensures exists m :: m in ms && r[i] == Unsuggest(uid, m) {
      assert kept[i] in ms && r[i] == Unsuggest(uid, kept[i]);
    }
    r
  }

  /** The surviving matches keep their table order: they are a subsequence of
      the table with `suggested_by` cleared. */
  lemma MatchesAfterUserDeletedOrder(ms: seq<Match>, ks: set<nat>, kd: set<nat>, uid: nat)
    ensures IsSubsequence(MatchesAfterUserDeleted(ms, ks, kd, uid), MapSeq(ms, m => Unsuggest(uid, m)))
  {
    FilterIsSubsequence(ms, m => Survives(ks, kd, m));
    MapSubsequence(Filter(ms, m => Survives(ks, kd, m)), ms, m => Unsuggest(uid, m));
  }

  /** Deleting a user keeps the uniqueness constraints of the surviving
      matches: clearing `suggested_by` changes neither ids nor pairs. */
  lemma MatchesAfterUserDeletedPairwise(ms: seq<Match>, ks: set<nat>, kd: set<nat>, uid: nat)
    requires Pairwise(ms, MatchIdsDiffer) && Pairwise(ms, PairsDiffer)
    ensures Pairwise(MatchesAfterUserDeleted(ms, ks, kd, uid), MatchIdsDiffer)
    ensures Pairwise(MatchesAfterUserDeleted(ms, ks, kd, uid), PairsDiffer)
  {
    var keep := m => Survives(ks, kd, m);
    var clear := m => Unsuggest(uid, m);
    FilterPairwise(ms, keep, MatchIdsDiffer);
    FilterPairwise(ms, keep, PairsDiffer);
    MapPairwise(Filter(ms, keep), clear, MatchIdsDiffer, MatchIdsDiffer);
    MapPairwise(Filter(ms, keep), clear, PairsDiffer, PairsDiffer);
  }

  predicate OnPair(s: nat, d: nat, m: Match) { m.surplus == s && m.demand == d }

  /** There is at most one match per (surplus, demand) pair. */
  lemma {:induction false} AtMostOneMatchPerPair(ms: seq<Match>, s: nat, d: nat)
    requires Pairwise(ms, PairsDiffer)
    ensures |Filter(ms, m => OnPair(s, d, m))| <= 1
  {
    if ms != [] {
      var t := ms[1..];
      assert Pairwise(t, PairsDiffer) by {
        forall i, j | 0 <= i < j < |t| ensures PairsDiffer(t[i], t[j]) {
          assert t[i] == ms[i + 1] && t[j] == ms[j + 1];
        }
      }
      AtMostOneMatchPerPair(t, s, d);
      if OnPair(s, d, ms[0]) {
        var rest := Filter(t, m => OnPair(s, d, m));
        forall k | 0 <= k < |t| ensures !OnPair(s, d, t[k]) {
          assert t[k] == ms[k + 1] && PairsDiffer(ms[0], ms[k + 1]);
        }
        FilterMembers(t, m => OnPair(s, d, m));
        NoMembersEmpty(rest);
      }
    }
  }

  // ---------------------------------------------------------------------
  // The store
  // ---------------------------------------------------------------------

  /** What the listing forms submit, `user` aside (it is excluded from both
      forms); `approved` is an ordinary editable field of the forms. */
  datatype SurplusForm = SurplusForm(
    company: string,
    location: string,
    materialType: Material,
    description: string,
    isFoodSafe: bool,
    contactEmail: string,
    approved: bool)

  datatype DemandForm = DemandForm(
    organisation: Option<string>,
    location: string,
    materialWanted: Material,
    intendedUse: Option<string>,
    approved: bool)

  /** The three directory tables, each in its `ordering = ["-created_on"]`
      order (newest first), together with the users they refer to. */
  class Store {
    var users: map<nat, Account>
    var surpluses: seq<Surplus>
    var demands: seq<Demand>
    var matches: seq<Match>
    var nextSurplusId: nat
    var nextDemandId: nat
    var nextMatchId: nat

    /** Primary keys are unique and below the next key; every foreign key
        refers to an existing row; no (surplus, demand) pair occurs twice. */
    ghost predicate Valid()
      reads this
    {
      && Pairwise(surpluses, SurplusIdsDiffer)
      && Pairwise(demands, DemandIdsDiffer)
      && Pairwise(matches, MatchIdsDiffer)
      && Pairwise(matches, PairsDiffer)
      && (forall x :: x in surpluses ==> x.id < nextSurplusId && x.owner in users)
      && (forall x :: x in demands ==> x.id < nextDemandId && x.owner in users)
      && (forall m :: m in matches ==> m.id < nextMatchId)
      && (forall m :: m in matches ==> m.surplus in SurplusIds(surpluses) && m.demand in DemandIds(demands))
      && (forall m :: m in matches ==> m.suggestedBy.Some? ==> m.suggestedBy.value in users)
    }

    /** A store over the given users, with no listings and no matches. */
    constructor (users: map<nat, Account>)
      ensures Valid()
      ensures this.users == users && surpluses == [] && demands == [] && matches == []
    {
      this.users := users;
      surpluses, demands, matches := [], [], [];
      nextSurplusId, nextDemandId, nextMatchId := 1, 1, 1;
    }

    /** Inserts a surplus listing owned by `owner` in front of the table. */
    method CreateSurplus(owner: nat, form: SurplusForm) returns (row: Surplus)
      requires Valid() && owner in users
      modifies this
      ensures Valid()
      ensures row == Surplus(old(nextSurplusId), owner, form.company, form.location, form.materialType,
        form.description, form.isFoodSafe, form.contactEmail, form.approved)
      ensures surpluses == [row] + old(surpluses) && nextSurplusId == old(nextSurplusId) + 1
      ensures users == old(users) && demands == old(demands) && matches == old(matches)
      ensures nextDemandId == old(nextDemandId) && nextMatchId == old(nextMatchId)
    {
      row := Surplus(nextSurplusId, owner, form.company, form.location, form.materialType,
        form.description, form.isFoodSafe, form.contactEmail, form.approved);
      PairwisePrepend(row, surpluses, SurplusIdsDiffer);
      assert SurplusIds([row] + surpluses) == SurplusIds(surpluses) + {row.id};
      surpluses := [row] + surpluses;
      nextSurplusId := nextSurplusId + 1;
    }

    /** Inserts a demand listing owned by `owner` in front of the table. */
    method CreateDemand(owner: nat, form: DemandForm) returns (row: Demand)
      requires Valid() && owner in users
      modifies this
      ensures Valid()
      ensures row == Demand(old(nextDemandId), owner, form.organisation, form.location, form.materialWanted,
        form.intendedUse, form.approved)
      ensures demands == [row] + old(demands) && nextDemandId == old(nextDemandId) + 1
      ensures users == old(users) && surpluses == old(surpluses) && matches == old(matches)
      ensures nextSurplusId == old(nextSurplusId) && nextMatchId == old(nextMatchId)
    {
      row := Demand(nextDemandId, owner, form.organisation, form.location, form.materialWanted,
        form.intendedUse, form.approved);
      PairwisePrepend(row, demands, DemandIdsDiffer);
      assert DemandIds([row] + demands) == DemandIds(demands) + {row.id};
      demands := [row] + demands;
      nextDemandId := nextDemandId + 1;
    }

    /** `Match.objects.create`: inserts a match in front of the table, or,
        when the pair already has one, fails the uniqueness constraint and
        changes nothing. */
    method CreateMatch(surplus: nat, demand: nat, suggestedBy: Option<nat>) returns (row: Option<Match>)
      requires Valid()
      requires surplus in SurplusIds(surpluses) && demand in DemandIds(demands)
      requires suggestedBy.Some? ==> suggestedBy.value in users
      modifies this
      ensures Valid()
      ensures row.None? <==> exists m :: m in old(matches) && m.surplus == surplus && m.demand == demand
      ensures row.None? ==> matches == old(matches) && nextMatchId == old(nextMatchId)
      ensures row.Some? ==>
        && row.value == Match(old(nextMatchId), surplus, demand, suggestedBy, None)
        && matches == [row.value] + old(matches) && nextMatchId == old(nextMatchId) + 1
      ensures users == old(users) && surpluses == old(surpluses) && demands == old(demands)
      ensures nextSurplusId == old(nextSurplusId) && nextDemandId == old(nextDemandId)
    {
      if exists m :: m in matches && m.surplus == surplus && m.demand == demand {
        return None;
      }
      var m := Match(nextMatchId, surplus, demand, suggestedBy, None);
      PairwisePrepend(m, matches, MatchIdsDiffer);
      PairwisePrepend(m, matches, PairsDiffer);
      matches := [m] + matches;
      nextMatchId := nextMatchId + 1;
      row := Some(m);
    }

    /** Deletes surplus `id` and, by cascade, every match that references it. */
    method DeleteSurplus(id: nat)
      requires Valid()
      modifies this
      ensures Valid()
      ensures surpluses == SurplusesWithout(old(surpluses), id)
      ensures matches == MatchesWithoutSurplus(old(matches), id)
      ensures users == old(users) && demands == old(demands)
      ensures nextSurplusId == old(nextSurplusId) && nextDemandId == old(nextDemandId) && nextMatchId == old(nextMatchId)
    {
      FilterPairwise(surpluses, x => NotSurplus(id, x), SurplusIdsDiffer);
      FilterPairwise(matches, m => AvoidsSurplus(id, m), MatchIdsDiffer);
      FilterPairwise(matches, m => AvoidsSurplus(id, m), PairsDiffer);
      ghost var before := surpluses;
      surpluses := SurplusesWithout(surpluses, id);
      matches := MatchesWithoutSurplus(matches, id);
      forall m | m in matches ensures m.surplus in SurplusIds(surpluses) {
        var x :| x in before && x.id == m.surplus;
        assert x in surpluses;
      }
    }

    /** Deletes demand `id` and, by cascade, every match that references it. */
    method DeleteDemand(id: nat)
      requires Valid()
      modifies this
      ensures Valid()
      ensures demands == DemandsWithout(old(demands), id)
      ensures matches == MatchesWithoutDemand(old(matches), id)
      ensures users == old(users) && surpluses == old(surpluses)
      ensures nextSurplusId == old(nextSurplusId) && nextDemandId == old(nextDemandId) && nextMatchId == old(nextMatchId)
    {
      FilterPairwise(demands, x => NotDemand(id, x), DemandIdsDiffer);
      FilterPairwise(matches, m => AvoidsDemand(id, m), MatchIdsDiffer);
      FilterPairwise(matches, m => AvoidsDemand(id, m), PairsDiffer);
      ghost var before := demands;
      demands := DemandsWithout(demands, id);
      matches := MatchesWithoutDemand(matches, id);
      forall m | m in matches ensures m.demand in DemandIds(demands) {
        var x :| x in before && x.id == m.demand;
        assert x in demands;
      }
    }

    /** Deletes user `uid`: their listings go by cascade, and with them every
        match on those listings; the surviving matches they suggested keep
        their row with `suggested_by` cleared. */
    method DeleteUser(uid: nat)
      requires Valid()
      modifies this
      ensures Valid()
      ensures users == old(users) - {uid}
      ensures surpluses == SurplusesNotOwnedBy(old(surpluses), uid)
      ensures demands == DemandsNotOwnedBy(old(demands), uid)
      ensures matches == MatchesAfterUserDeleted(old(matches), SurplusIds(surpluses), DemandIds(demands), uid)
      ensures nextSurplusId == old(nextSurplusId) && nextDemandId == old(nextDemandId) && nextMatchId == old(nextMatchId)
    {
      FilterPairwise(surpluses, x => SurplusNotOwnedBy(uid, x), SurplusIdsDiffer);
      FilterPairwise(demands, x => DemandNotOwnedBy(uid, x), DemandIdsDiffer);
      ghost var oldMatches := matches;
      var keptSurpluses := SurplusesNotOwnedBy(surpluses, uid);
      var keptDemands := DemandsNotOwnedBy(demands, uid);
      MatchesAfterUserDeletedPairwise(matches, SurplusIds(keptSurpluses), DemandIds(keptDemands), uid);
      var keptMatches := MatchesAfterUserDeleted(matches, SurplusIds(keptSurpluses), DemandIds(keptDemands), uid);
      forall i | 0 <= i < |keptMatches| ensures keptMatches[i].id < nextMatchId
        && (keptMatches[i].suggestedBy.Some? ==> keptMatches[i].suggestedBy.value in users - {uid})
      {
        var m :| m in oldMatches && keptMatches[i] == Unsuggest(uid, m);
      }
      users := users - {uid};
      surpluses, demands, matches := keptSurpluses, keptDemands, keptMatches;
    }
  }
}
