/** The HTTP handlers of the API. The read handlers only query the tables and
    are functions of them; the favorite add and delete handlers change the
    favorites table and are methods of `FavoritoTable`. A handler's outcome
    is `Ok(body)` (status 200) or `Err(status, message)` (an `APIException`).
    The request body's `user_id` is an `Option<int>`: `None` when absent. */
module App {
  import opened Json
  import opened Tables
  import opened Models
  import opened Favorites

  datatype Response<T> = Ok(value: T) | Err(status: int, message: string)

  const BadRequest: int := 400
  const NotFound: int := 404

  const UserIdRequired: string := "User ID is required"
  const UserNotFound: string := "User not found"
  const PersonNotFound: string := "Person not found"
  const PlanetNotFound: string := "Planet not found"
  const VehicleNotFound: string := "Vehicle not found"
  const FavoriteNotFound: string := "Favorite not found"

  // ------------------------------------------------------------ list all

  /** GET /people: every person, serialized, in table order; never fails. */
  function GetAllPeople(people: seq<People>): (r: Response<seq<Object>>)
    ensures r.Ok? && |r.value| == |people|
    ensures forall i :: 0 <= i < |people| ==> r.value[i].Keys == PeopleKeys
    ensures forall i :: 0 <= i < |people| ==> PeopleFromJson(r.value[i]) == Some(people[i])
  {
    Ok(seq(|people|, i requires 0 <= i < |people| => SerializePeople(people[i])))
  }

  /** GET /planet */
  function GetAllPlanets(planets: seq<Planet>): (r: Response<seq<Object>>)
    ensures r.Ok? && |r.value| == |planets|
    ensures forall i :: 0 <= i < |planets| ==> r.value[i].Keys == PlanetKeys
    ensures forall i :: 0 <= i < |planets| ==> PlanetFromJson(r.value[i]) == Some(planets[i])
  {
    Ok(seq(|planets|, i requires 0 <= i < |planets| => SerializePlanet(planets[i])))
  }

  /** GET /vehicle */
  function GetAllVehicles(vehicles: seq<Vehicle>): (r: Response<seq<Object>>)
    ensures r.Ok? && |r.value| == |vehicles|
    ensures forall i :: 0 <= i < |vehicles| ==> r.value[i].Keys == VehicleKeys
    ensures forall i :: 0 <= i < |vehicles| ==> VehicleFromJson(r.value[i]) == Some(vehicles[i])
  {
    Ok(seq(|vehicles|, i requires 0 <= i < |vehicles| => SerializeVehicle(vehicles[i])))
  }

  /** GET /users: every user without password or active flag. */
  function GetAllUsers(users: seq<User>): (r: Response<seq<Object>>)
    ensures r.Ok? && |r.value| == |users|
    ensures forall i :: 0 <= i < |users| ==> r.value[i].Keys == UserKeys
    ensures forall i :: 0 <= i < |users| ==>
      UserFromJson(r.value[i], users[i].password, users[i].isActive) == Some(users[i])
  {
    Ok(seq(|users|, i requires 0 <= i < |users| => SerializeUser(users[i])))
  }

  // ------------------------------------------------------------ get by id

  /** GET /people/<id>: the stored person with that id, or 404. */
  function GetSinglePerson(people: seq<People>, peopleId: int): (r: Response<Object>)
    ensures r.Err? <==> forall i :: 0 <= i < |people| ==> people[i].id != peopleId
    ensures r.Err? ==> r == Err(NotFound, PersonNotFound)
    ensures r.Ok? ==> r.value.Keys == PeopleKeys
    ensures r.Ok? ==> exists i :: 0 <= i < |people| && people[i].id == peopleId && PeopleFromJson(r.value) == Some(people[i])
  {
    match FindById(people, PeopleId, peopleId)
    case None => Err(NotFound, PersonNotFound)
    case Some(i) => Ok(SerializePeople(people[i]))
  }

  /** GET /planet/<id> */
  function GetSinglePlanet(planets: seq<Planet>, planetId: int): (r: Response<Object>)
    ensures r.Err? <==> forall i :: 0 <= i < |planets| ==> planets[i].id != planetId
    ensures r.Err? ==> r == Err(NotFound, PlanetNotFound)
    ensures r.Ok? ==> r.value.Keys == PlanetKeys
    ensures r.Ok? ==> exists i :: 0 <= i < |planets| && planets[i].id == planetId && PlanetFromJson(r.value) == Some(planets[i])
  {
    match FindById(planets, PlanetId, planetId)
    case None => Err(NotFound, PlanetNotFound)
    case Some(i) => Ok(SerializePlanet(planets[i]))
  }

  /** GET /vehicle/<id> */
  function GetSingleVehicle(vehicles: seq<Vehicle>, vehicleId: int): (r: Response<Object>)
    ensures r.Err? <==> forall i :: 0 <= i < |vehicles| ==> vehicles[i].id != vehicleId
    ensures r.Err? ==> r == Err(NotFound, VehicleNotFound)
    ensures r.Ok? ==> r.value.Keys == VehicleKeys
    ensures r.Ok? ==> exists i :: 0 <= i < |vehicles| && vehicles[i].id == vehicleId && VehicleFromJson(r.value) == Some(vehicles[i])
  {
    match FindById(vehicles, VehicleId, vehicleId)
    case None => Err(NotFound, VehicleNotFound)
    case Some(i) => Ok(SerializeVehicle(vehicles[i]))
  }

  /** In a valid table, each get-by-id handler returns exactly the record stored under that id. */
  lemma GetSinglePersonStored(people: seq<People>, i: nat)
    requires PeopleTableValid(people) && i < |people|
    ensures GetSinglePerson(people, people[i].id) == Ok(SerializePeople(people[i]))
  {
  }

  lemma GetSinglePlanetStored(planets: seq<Planet>, i: nat)
    requires PlanetTableValid(planets) && i < |planets|
    ensures GetSinglePlanet(planets, planets[i].id) == Ok(SerializePlanet(planets[i]))
  {
  }

  lemma GetSingleVehicleStored(vehicles: seq<Vehicle>, i: nat)
    requires VehicleTableValid(vehicles) && i < |vehicles|
    ensures GetSingleVehicle(vehicles, vehicles[i].id) == Ok(SerializeVehicle(vehicles[i]))
  {
  }

  // ------------------------------------------------------------ favorites

  /** GET /users/favorites: 400 without `user_id` (checked first), 404 for an
      unknown user, else exactly that user's favorites, serialized. */
  function GetUserFavorites(users: seq<User>, favorites: seq<Favorito>, userId: Option<int>): (r: Response<seq<Object>>)
    ensures userId.None? ==> r == Err(BadRequest, UserIdRequired)
    ensures userId.Some? ==> (r.Err? <==> forall i :: 0 <= i < |users| ==> users[i].id != userId.value)
    ensures userId.Some? && r.Err? ==> r == Err(NotFound, UserNotFound)
    ensures r.Ok? ==> userId.Some? && |r.value| == CountWhere(favorites, OwnedBy(userId.value))
    ensures r.Ok? ==> forall k :: 0 <= k < |r.value| ==>
      var f := FavoritoFromJson(r.value[k]); f.Some? && f.value in favorites && f.value.userId == userId.value
    ensures r.Ok? ==> forall j :: 0 <= j < |favorites| && favorites[j].userId == userId.value ==>
      SerializeFavorito(favorites[j]) in r.value
  {
    if userId.None? then Err(BadRequest, UserIdRequired)
    else if FindById(users, UserId, userId.value).None? then Err(NotFound, UserNotFound)
    else
      Ok(SerializeFavoritos(Filter(favorites, OwnedBy(userId.value))))
  }

  /** `list(map(lambda favorite: favorite.serialize(), favorites))`. */
  function SerializeFavoritos(rows: seq<Favorito>): (out: seq<Object>)
    ensures |out| == |rows|
    ensures forall k :: 0 <= k < |out| ==> FavoritoFromJson(out[k]) == Some(rows[k])
    ensures forall f :: f in rows ==> SerializeFavorito(f) in out
  {
    var out := seq(|rows|, k requires 0 <= k < |rows| => SerializeFavorito(rows[k]));
    assert forall k :: 0 <= k < |rows| ==> out[k] == SerializeFavorito(rows[k]);
    out
  }

  /** After an add for a known user, listing that user's favorites shows the
      new row, carrying the chosen target and no other. */
  lemma AddedFavoriteInUserList(users: seq<User>, favorites: seq<Favorito>, u: nat, id: int, kind: TargetKind, targetId: int)
    requires u < |users|
    ensures var row := NewFavorito(id, users[u].id, kind, targetId);
      var r := GetUserFavorites(users, favorites + [row], Some(users[u].id));
      r.Ok? && SerializeFavorito(row) in r.value && Target(row) == Some((kind, targetId))
  {
    var row := NewFavorito(id, users[u].id, kind, targetId);
    var favorites' := favorites + [row];
    assert favorites'[|favorites|] == row;
  }

  /** A one-planet table: id 1 is found with its name, id 999 is a 404. */
  lemma PlanetLookupExample()
    ensures var planets := [Planet(1, "Tatooine", "10465", "200000", "arid", "desert")];
      && GetSinglePlanet(planets, 1).Ok?
      && GetSinglePlanet(planets, 1).value["name"] == Str("Tatooine")
      && GetSinglePlanet(planets, 999) == Err(404, "Planet not found")
  {
  }

  /** The favorites table: its rows in insertion order and the id the next
      inserted row receives. */
  class FavoritoTable {
    var rows: seq<Favorito>
    var nextId: int

    /** Primary keys are unique and all below the next id. */
    ghost predicate Valid()
      reads this
    {
      UniqueBy(rows, FavoritoId) && forall i :: 0 <= i < |rows| ==> rows[i].id < nextId
    }

    constructor (rows: seq<Favorito>, nextId: int)
      requires UniqueBy(rows, FavoritoId) && forall i :: 0 <= i < |rows| ==> rows[i].id < nextId
      ensures Valid() && this.rows == rows && this.nextId == nextId
    {
      this.rows := rows;
      this.nextId := nextId;
    }

    /** POST /favorite/<kind>/<id>: without `user_id` a 400 and no change;
        otherwise one new row for that user and target is appended and
        returned. Neither the user nor the target is looked up. */
    method AddFavorite(kind: TargetKind, userId: Option<int>, targetId: int) returns (r: Response<Object>)
      requires Valid()
      modifies this
      ensures Valid()
      ensures userId.None? ==> r == Err(BadRequest, UserIdRequired) && rows == old(rows) && nextId == old(nextId)
      ensures userId.Some? ==>
        var row := NewFavorito(old(nextId), userId.value, kind, targetId);
        && rows == old(rows) + [row]
        && nextId == old(nextId) + 1
        && r == Ok(SerializeFavorito(row))
      ensures old(AllSingleTarget(rows)) ==> AllSingleTarget(rows)
    {
      if userId.None? {
        r := Err(BadRequest, UserIdRequired);
        return;
      }
      var row := NewFavorito(nextId, userId.value, kind, targetId);
      if AllSingleTarget(rows) {
        AddKeepsSingleTarget(rows, nextId, userId.value, kind, targetId);
      }
      rows := rows + [row];
      nextId := nextId + 1;
      r := Ok(SerializeFavorito(row));
    }

    /** DELETE /favorite/<kind>/<id>: without `user_id` a 400; with no row for
        that (user, target) a 404; otherwise the first such row is removed,
        the others keep their order, and the removed row is returned. */
    method DeleteFavorite(kind: TargetKind, userId: Option<int>, targetId: int) returns (r: Response<Object>)
      requires Valid()
      modifies this
      ensures Valid() && nextId == old(nextId)
      ensures userId.None? ==> r == Err(BadRequest, UserIdRequired) && rows == old(rows)
      ensures userId.Some? ==>
        match FirstMatch(old(rows), userId.value, kind, targetId)
        case None => r == Err(NotFound, FavoriteNotFound) && rows == old(rows)
        case Some(i) =>
          && r == Ok(SerializeFavorito(old(rows)[i]))
          && rows == RemoveAt(old(rows), i)
          && forall j :: 0 <= j < |rows| ==> rows[j].id != old(rows)[i].id
      ensures old(AllSingleTarget(rows)) ==> AllSingleTarget(rows)
    {
      if userId.None? {
        r := Err(BadRequest, UserIdRequired);
        return;
      }
      match FirstMatch(rows, userId.value, kind, targetId)
      case None =>
        r := Err(NotFound, FavoriteNotFound);
      case Some(i) =>
        var row := rows[i];
        RemoveAtKey(rows, FavoritoId, i);
        if AllSingleTarget(rows) {
          DeleteKeepsSingleTarget(rows, i);
        }
        rows := RemoveAt(rows, i);
        r := Ok(SerializeFavorito(row));
    }

    /** POST /favorite/planet/<planet_id>: `Favorito(user_id=..., planet_id=...)`. */
    method AddFavoritePlanet(userId: Option<int>, planetId: int) returns (r: Response<Object>)
      requires Valid()
      modifies this
      ensures Valid()
      ensures userId.None? ==> r == Err(BadRequest, UserIdRequired) && rows == old(rows) && nextId == old(nextId)
      ensures userId.Some? ==>
        var row := Favorito(old(nextId), userId.value, None, Some(planetId), None);
        rows == old(rows) + [row] && nextId == old(nextId) + 1 && r == Ok(SerializeFavorito(row))
    {
      r := AddFavorite(PlanetKind, userId, planetId);
    }

    /** POST /favorite/people/<people_id>: `Favorito(user_id=..., person_id=...)`. */
    method AddFavoritePeople(userId: Option<int>, peopleId: int) returns (r: Response<Object>)
      requires Valid()
      modifies this
      ensures Valid()
      ensures userId.None? ==> r == Err(BadRequest, UserIdRequired) && rows == old(rows) && nextId == old(nextId)
      ensures userId.Some? ==>
        var row := Favorito(old(nextId), userId.value, Some(peopleId), None, None);
        rows == old(rows) + [row] && nextId == old(nextId) + 1 && r == Ok(SerializeFavorito(row))
    {
      r := AddFavorite(PersonKind, userId, peopleId);
    }

    /** POST /favorite/vehicle/<vehicle_id>: `Favorito(user_id=..., vehicle_id=...)`. */
    method AddFavoriteVehicle(userId: Option<int>, vehicleId: int) returns (r: Response<Object>)
      requires Valid()
      modifies this
      ensures Valid()
      ensures userId.None? ==> r == Err(BadRequest, UserIdRequired) && rows == old(rows) && nextId == old(nextId)
      ensures userId.Some? ==>
        var row := Favorito(old(nextId), userId.value, None, None, Some(vehicleId));
        rows == old(rows) + [row] && nextId == old(nextId) + 1 && r == Ok(SerializeFavorito(row))
    {
      r := AddFavorite(VehicleKind, userId, vehicleId);
    }

    /** DELETE /favorite/planet/<planet_id>: `filter_by(user_id=..., planet_id=...).first()`. */
    method DeleteFavoritePlanet(userId: Option<int>, planetId: int) returns (r: Response<Object>)
      requires Valid()
      modifies this
      ensures Valid() && nextId == old(nextId)
      ensures userId.None? ==> r == Err(BadRequest, UserIdRequired) && rows == old(rows)
      ensures userId.Some? ==>
        match FirstWhere(old(rows), ByUserAndPlanet(userId.value, planetId))
        case None => r == Err(NotFound, FavoriteNotFound) && rows == old(rows)
        case Some(i) => r == Ok(SerializeFavorito(old(rows)[i])) && rows == RemoveAt(old(rows), i)
    {
      if userId.Some? {
        PerKindFiltersAgree(rows, userId.value, planetId);
      }
      r := DeleteFavorite(PlanetKind, userId, planetId);
    }

    /** DELETE /favorite/people/<people_id>: `filter_by(user_id=..., person_id=...).first()`. */
    method DeleteFavoritePeople(userId: Option<int>, peopleId: int) returns (r: Response<Object>)
      requires Valid()
      modifies this
      ensures Valid() && nextId == old(nextId)
      ensures userId.None? ==> r == Err(BadRequest, UserIdRequired) && rows == old(rows)
      ensures userId.Some? ==>
        match FirstWhere(old(rows), ByUserAndPerson(userId.value, peopleId))
        case None => r == Err(NotFound, FavoriteNotFound) && rows == old(rows)
        case Some(i) => r == Ok(SerializeFavorito(old(rows)[i])) && rows == RemoveAt(old(rows), i)
    {
      if userId.Some? {
        PerKindFiltersAgree(rows, userId.value, peopleId);
      }
      r := DeleteFavorite(PersonKind, userId, peopleId);
    }

    /** DELETE /favorite/vehicle/<vehicle_id>: `filter_by(user_id=..., vehicle_id=...).first()`. */
    method DeleteFavoriteVehicle(userId: Option<int>, vehicleId: int) returns (r: Response<Object>)
      requires Valid()
      modifies this
      ensures Valid() && nextId == old(nextId)
      ensures userId.None? ==> r == Err(BadRequest, UserIdRequired) && rows == old(rows)
      ensures userId.Some? ==>
        match FirstWhere(old(rows), ByUserAndVehicle(userId.value, vehicleId))
        case None => r == Err(NotFound, FavoriteNotFound) && rows == old(rows)
        case Some(i) => r == Ok(SerializeFavorito(old(rows)[i])) && rows == RemoveAt(old(rows), i)
    {
      if userId.Some? {
        PerKindFiltersAgree(rows, userId.value, vehicleId);
      }
      r := DeleteFavorite(VehicleKind, userId, vehicleId);
    }
  }
}
