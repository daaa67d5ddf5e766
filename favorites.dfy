/** The favorites table as the add and delete handlers use it: which target
    column a favorite sets, the row an add builds, the row a delete picks, and
    the properties that hold of the table across those operations. */
module Favorites {
  import opened Json
  import opened Tables
  import opened Models

  /** Which of the three nullable target columns a handler works on. */
  datatype TargetKind = PersonKind | PlanetKind | VehicleKind

  /** The target column of `f` for `kind`. */
  function TargetField(f: Favorito, kind: TargetKind): Option<int> {
    match kind
    case PersonKind => f.personId
    case PlanetKind => f.planetId
    case VehicleKind => f.vehicleId
  }

  /** Exactly one of person_id, planet_id and vehicle_id is set. */
  predicate SingleTarget(f: Favorito) {
    (if f.personId.Some? then 1 else 0)
    + (if f.planetId.Some? then 1 else 0)
    + (if f.vehicleId.Some? then 1 else 0) == 1
  }

  predicate AllSingleTarget(rows: seq<Favorito>) {
    forall i :: 0 <= i < |rows| ==> SingleTarget(rows[i])
  }

  /** The row read as a tagged union: its one target, if it has exactly one. */
  function Target(f: Favorito): (t: Option<(TargetKind, int)>)
    ensures t.Some? <==> SingleTarget(f)
    ensures t.Some? ==> TargetField(f, t.value.0) == Some(t.value.1)
    ensures t.Some? ==> forall k :: k != t.value.0 ==> TargetField(f, k).None?
  {
    if !SingleTarget(f) then None
    else if f.personId.Some? then Some((PersonKind, f.personId.value))
    else if f.planetId.Some? then Some((PlanetKind, f.planetId.value))
    else Some((VehicleKind, f.vehicleId.value))
  }

  /** The row an add handler creates, `Favorito(user_id=..., <kind>_id=...)`,
      with the id the database gives it. */
  function NewFavorito(id: int, userId: int, kind: TargetKind, targetId: int): (f: Favorito)
    ensures f.id == id && f.userId == userId
    ensures Target(f) == Some((kind, targetId))
  {
    match kind
    case PersonKind => Favorito(id, userId, Some(targetId), None, None)
    case PlanetKind => Favorito(id, userId, None, Some(targetId), None)
    case VehicleKind => Favorito(id, userId, None, None, Some(targetId))
  }

  /** The delete handlers' `filter_by(user_id=..., <kind>_id=...)`. */
  function MatchPred(userId: int, kind: TargetKind, targetId: int): Favorito -> bool {
    (f: Favorito) => f.userId == userId && TargetField(f, kind) == Some(targetId)
  }

  /** The row a delete handler removes: the first match. */
  function FirstMatch(rows: seq<Favorito>, userId: int, kind: TargetKind, targetId: int): Option<nat> {
    FirstWhere(rows, MatchPred(userId, kind, targetId))
  }

  function CountMatching(rows: seq<Favorito>, userId: int, kind: TargetKind, targetId: int): nat {
    CountWhere(rows, MatchPred(userId, kind, targetId))
  }

  /** The three filters as the delete handlers spell them out, one per kind. */
  function ByUserAndPerson(userId: int, personId: int): Favorito -> bool {
    (f: Favorito) => f.userId == userId && f.personId == Some(personId)
  }

  function ByUserAndPlanet(userId: int, planetId: int): Favorito -> bool {
    (f: Favorito) => f.userId == userId && f.planetId == Some(planetId)
  }

  function ByUserAndVehicle(userId: int, vehicleId: int): Favorito -> bool {
    (f: Favorito) => f.userId == userId && f.vehicleId == Some(vehicleId)
  }

  /** The generic first match picks the same row as each per-kind filter. */
  lemma PerKindFiltersAgree(rows: seq<Favorito>, userId: int, targetId: int)
    ensures FirstWhere(rows, ByUserAndPerson(userId, targetId)) == FirstMatch(rows, userId, PersonKind, targetId)
    ensures FirstWhere(rows, ByUserAndPlanet(userId, targetId)) == FirstMatch(rows, userId, PlanetKind, targetId)
    ensures FirstWhere(rows, ByUserAndVehicle(userId, targetId)) == FirstMatch(rows, userId, VehicleKind, targetId)
  {
    FirstWhereSame(rows, ByUserAndPerson(userId, targetId), MatchPred(userId, PersonKind, targetId));
    FirstWhereSame(rows, ByUserAndPlanet(userId, targetId), MatchPred(userId, PlanetKind, targetId));
    FirstWhereSame(rows, ByUserAndVehicle(userId, targetId), MatchPred(userId, VehicleKind, targetId));
  }

  /** Two conditions that agree on every row pick the same first row. */
  lemma FirstWhereSame(rows: seq<Favorito>, p: Favorito -> bool, q: Favorito -> bool)
    requires forall j :: 0 <= j < |rows| ==> p(rows[j]) == q(rows[j])
    ensures FirstWhere(rows, p) == FirstWhere(rows, q)
  {
  }

  /** The rows `get_user_favorites` returns: `filter_by(user_id=...)`. */
  function OwnedBy(userId: int): Favorito -> bool {
    (f: Favorito) => f.userId == userId
  }

  function FavoritesOf(rows: seq<Favorito>, userId: int): (r: seq<Favorito>)
    ensures forall k :: 0 <= k < |r| ==> r[k] in rows && r[k].userId == userId
    ensures forall j :: 0 <= j < |rows| && rows[j].userId == userId ==> rows[j] in r
  {
    Filter(rows, OwnedBy(userId))
  }

  // ---------------------------------------------------------------- properties

  /** Appending a row the add handlers build keeps every row single-target. */
  lemma AddKeepsSingleTarget(rows: seq<Favorito>, id: int, userId: int, kind: TargetKind, targetId: int)
    requires AllSingleTarget(rows)
    ensures AllSingleTarget(rows + [NewFavorito(id, userId, kind, targetId)])
  {
  }

  /** Deleting any row keeps every remaining row single-target. */
  lemma DeleteKeepsSingleTarget(rows: seq<Favorito>, i: nat)
    requires AllSingleTarget(rows) && i < |rows|
    ensures AllSingleTarget(RemoveAt(rows, i))
  {
  }

  /** An added favorite is listed among its user's favorites. */
  lemma AddedFavoriteListed(rows: seq<Favorito>, id: int, userId: int, kind: TargetKind, targetId: int)
    ensures NewFavorito(id, userId, kind, targetId) in FavoritesOf(rows + [NewFavorito(id, userId, kind, targetId)], userId)
  {
    var rows' := rows + [NewFavorito(id, userId, kind, targetId)];
    assert rows'[|rows|] == NewFavorito(id, userId, kind, targetId);
  }

  /** Add then delete on the same (user, kind, target): the delete finds a row,
      the number of matching rows is back where it was, and the row removed is
      an older duplicate whenever one exists (so not necessarily the new row). */
  lemma AddThenDeleteRestoresCount(rows: seq<Favorito>, id: int, userId: int, kind: TargetKind, targetId: int)
    ensures var rows' := rows + [NewFavorito(id, userId, kind, targetId)];
      var m := FirstMatch(rows', userId, kind, targetId);
      && m.Some?
      && CountMatching(RemoveAt(rows', m.value), userId, kind, targetId) == CountMatching(rows, userId, kind, targetId)
      && (m.value < |rows| <==> FirstMatch(rows, userId, kind, targetId).Some?)
  {
    var row := NewFavorito(id, userId, kind, targetId);
    var rows' := rows + [row];
    var p := MatchPred(userId, kind, targetId);
    assert p(rows'[|rows|]);
    var m := FirstMatch(rows', userId, kind, targetId);
    assert forall j :: 0 <= j < |rows| ==> rows'[j] == rows[j];
    CountConcat(rows, [row], p);
    assert CountWhere([row], p) == 1;
    CountRemoveAt(rows', m.value, p);
    if m.value < |rows| {
      assert p(rows[m.value]);
    }
  }

  /** When exactly one row matches, a delete removes it and a second delete
      on the same (user, kind, target) finds nothing. */
  lemma DeleteOnlyMatchThenNotFound(rows: seq<Favorito>, userId: int, kind: TargetKind, targetId: int)
    requires CountMatching(rows, userId, kind, targetId) == 1
    ensures FirstMatch(rows, userId, kind, targetId).Some?
    ensures FirstMatch(RemoveAt(rows, FirstMatch(rows, userId, kind, targetId).value), userId, kind, targetId).None?
  {
    var p := MatchPred(userId, kind, targetId);
    CountZero(rows, p);
    var m := FirstMatch(rows, userId, kind, targetId);
    CountRemoveAt(rows, m.value, p);
    CountZero(RemoveAt(rows, m.value), p);
  }
}
