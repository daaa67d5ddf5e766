/** The five database models: their columns (a nullable column is an
    `Option`, a required one a plain value), the declared column widths and
    uniqueness, and each model's `serialize()` projection together with a
    reader that recovers the row from it. */
module Models {
  import opened Json
  import opened Tables

  /** A favorite: one user and (when created through the API) one target. */
  datatype Favorito = Favorito(
    id: int,
    userId: int,
    personId: Option<int>,
    planetId: Option<int>,
    vehicleId: Option<int>)

  datatype User = User(
    id: int,
    name: string,
    lastName: Option<string>,
    email: string,
    password: string,
    isActive: bool)

  datatype People = People(id: int, name: string, height: string, mass: string, gender: string)

  datatype Planet = Planet(
    id: int,
    name: string,
    diameter: string,
    population: string,
    climate: string,
    terrain: string)

  datatype Vehicle = Vehicle(
    id: int,
    name: string,
    length: Option<string>,
    crew: Option<string>,
    passengers: Option<string>)

  /** Primary keys, as function values for the table queries. */
  const FavoritoId: Favorito -> int := (f: Favorito) => f.id
  const UserId: User -> int := (u: User) => u.id
  const PeopleId: People -> int := (p: People) => p.id
  const PlanetId: Planet -> int := (p: Planet) => p.id
  const VehicleId: Vehicle -> int := (v: Vehicle) => v.id

  // ---------------------------------------------------------------- columns

  /** A `String(n)` column holds at most `n` characters. */
  predicate Fits(s: string, width: nat) { |s| <= width }

  predicate FitsNullable(s: Option<string>, width: nat) { s.Some? ==> Fits(s.value, width) }

  predicate UserFitsColumns(u: User) {
    Fits(u.name, 20) && FitsNullable(u.lastName, 20) && Fits(u.email, 120) && Fits(u.password, 80)
  }

  predicate PeopleFitsColumns(p: People) {
    Fits(p.name, 20) && Fits(p.height, 10) && Fits(p.mass, 10) && Fits(p.gender, 10)
  }

  predicate PlanetFitsColumns(p: Planet) {
    Fits(p.name, 100) && Fits(p.diameter, 10) && Fits(p.population, 10)
    && Fits(p.climate, 20) && Fits(p.terrain, 20)
  }

  /** Only `name` is bounded; the other vehicle columns are unbounded `String`. */
  predicate VehicleFitsColumns(v: Vehicle) { Fits(v.name, 20) }

  /** The people table: primary key and declared widths. */
  predicate PeopleTableValid(people: seq<People>) {
    UniqueBy(people, PeopleId) && forall i :: 0 <= i < |people| ==> PeopleFitsColumns(people[i])
  }

  /** The planet table: primary key and declared widths. */
  predicate PlanetTableValid(planets: seq<Planet>) {
    UniqueBy(planets, PlanetId) && forall i :: 0 <= i < |planets| ==> PlanetFitsColumns(planets[i])
  }

  /** The vehicle table: primary key and declared widths. */
  predicate VehicleTableValid(vehicles: seq<Vehicle>) {
    UniqueBy(vehicles, VehicleId) && forall i :: 0 <= i < |vehicles| ==> VehicleFitsColumns(vehicles[i])
  }

  /** The user table: primary key, `unique=True` on name and on email, widths. */
  predicate UserTableValid(users: seq<User>) {
    UniqueBy(users, UserId)
    && (forall i, j :: 0 <= i < j < |users| ==> users[i].name != users[j].name)
    && (forall i, j :: 0 <= i < j < |users| ==> users[i].email != users[j].email)
    && (forall i :: 0 <= i < |users| ==> UserFitsColumns(users[i]))
  }

  /** In a valid user table a name, and an email, picks out at most one user. */
  lemma UserNameEmailIdentify(users: seq<User>, i: nat, j: nat)
    requires UserTableValid(users) && i < |users| && j < |users|
    ensures users[i].name == users[j].name ==> i == j
    ensures users[i].email == users[j].email ==> i == j
  {
  }

  // ------------------------------------------------------------ serializers

  const FavoritoKeys: set<string> := {"id", "user_id", "person_id", "planet_id", "vehicle_id"}
  const UserKeys: set<string> := {"id", "name", "last_name", "email"}
  const PeopleKeys: set<string> := {"id", "name", "height", "mass", "gender"}
  const PlanetKeys: set<string> := {"id", "name", "diameter", "population", "climate", "terrain"}
  const VehicleKeys: set<string> := {"id", "name", "length", "crew", "passengers"}

  /** Reads a serialized favorite back; `None` for an object of another shape. */
  function FavoritoFromJson(o: Object): (r: Option<Favorito>)
    ensures r.Some? ==> IntAt(o, "id") == Some(r.value.id) && IntAt(o, "user_id") == Some(r.value.userId)
  {
    var id :- IntAt(o, "id");
    var userId :- IntAt(o, "user_id");
    var personId :- NullableIntAt(o, "person_id");
    var planetId :- NullableIntAt(o, "planet_id");
    var vehicleId :- NullableIntAt(o, "vehicle_id");
    Some(Favorito(id, userId, personId, planetId, vehicleId))
  }

  /** `Favorito.serialize()`: exactly the five columns, each copied as it is. */
  function SerializeFavorito(f: Favorito): (o: Object)
    ensures o.Keys == FavoritoKeys
    ensures FavoritoFromJson(o) == Some(f)
  {
    map["id" := Int(f.id),
        "user_id" := Int(f.userId),
        "person_id" := OfNullableInt(f.personId),
        "planet_id" := OfNullableInt(f.planetId),
        "vehicle_id" := OfNullableInt(f.vehicleId)]
  }

  /** Reads a serialized user back, given the two columns the serializer drops. */
  function UserFromJson(o: Object, password: string, isActive: bool): (r: Option<User>)
    ensures r.Some? ==> r.value.password == password && r.value.isActive == isActive
  {
    var id :- IntAt(o, "id");
    var name :- StrAt(o, "name");
    var lastName :- NullableStrAt(o, "last_name");
    var email :- StrAt(o, "email");
    Some(User(id, name, lastName, email, password, isActive))
  }

  /** `User.serialize()`: id, name, last_name and email, and never the password
      or the active flag; whatever those two are, the rest of the user is
      recovered from the output. */
  function SerializeUser(u: User): (o: Object)
    ensures o.Keys == UserKeys
    ensures "password" !in o && "is_active" !in o
    ensures forall password, isActive ::
      UserFromJson(o, password, isActive) == Some(u.(password := password, isActive := isActive))
  {
    map["id" := Int(u.id),
        "name" := Str(u.name),
        "last_name" := OfNullableStr(u.lastName),
        "email" := Str(u.email)]
  }

  /** Two users serialize alike exactly when they differ at most in password
      and active flag. */
  lemma SerializeUserHidesSecrets(u1: User, u2: User)
    ensures SerializeUser(u1) == SerializeUser(u2)
      <==> u1.(password := u2.password, isActive := u2.isActive) == u2
  {
  }

  function PeopleFromJson(o: Object): (r: Option<People>)
    ensures r.Some? ==> IntAt(o, "id") == Some(r.value.id)
  {
    var id :- IntAt(o, "id");
    var name :- StrAt(o, "name");
    var height :- StrAt(o, "height");
    var mass :- StrAt(o, "mass");
    var gender :- StrAt(o, "gender");
    Some(People(id, name, height, mass, gender))
  }

  /** `People.serialize()`: exactly the five columns, copied unchanged. */
  function SerializePeople(p: People): (o: Object)
    ensures o.Keys == PeopleKeys
    ensures PeopleFromJson(o) == Some(p)
  {
    map["id" := Int(p.id),
        "name" := Str(p.name),
        "height" := Str(p.height),
        "mass" := Str(p.mass),
        "gender" := Str(p.gender)]
  }

  function PlanetFromJson(o: Object): (r: Option<Planet>)
    ensures r.Some? ==> IntAt(o, "id") == Some(r.value.id)
  {
    var id :- IntAt(o, "id");
    var name :- StrAt(o, "name");
    var diameter :- StrAt(o, "diameter");
    var population :- StrAt(o, "population");
    var climate :- StrAt(o, "climate");
    var terrain :- StrAt(o, "terrain");
    Some(Planet(id, name, diameter, population, climate, terrain))
  }

  /** `Planet.serialize()`: exactly the six columns, copied unchanged. */
  function SerializePlanet(p: Planet): (o: Object)
    ensures o.Keys == PlanetKeys
    ensures PlanetFromJson(o) == Some(p)
  {
    map["id" := Int(p.id),
        "name" := Str(p.name),
        "diameter" := Str(p.diameter),
        "population" := Str(p.population),
        "climate" := Str(p.climate),
        "terrain" := Str(p.terrain)]
  }

  function VehicleFromJson(o: Object): (r: Option<Vehicle>)
    ensures r.Some? ==> IntAt(o, "id") == Some(r.value.id)
  {
    var id :- IntAt(o, "id");
    var name :- StrAt(o, "name");
    var length :- NullableStrAt(o, "length");
    var crew :- NullableStrAt(o, "crew");
    var passengers :- NullableStrAt(o, "passengers");
    Some(Vehicle(id, name, length, crew, passengers))
  }

  /** `Vehicle.serialize()`: exactly the five columns, the nullable ones as
      `null` when unset. */
  function SerializeVehicle(v: Vehicle): (o: Object)
    ensures o.Keys == VehicleKeys
    ensures o["length"].Null? <==> v.length.None?
    ensures VehicleFromJson(o) == Some(v)
  {
    map["id" := Int(v.id),
        "name" := Str(v.name),
        "length" := OfNullableStr(v.length),
        "crew" := OfNullableStr(v.crew),
        "passengers" := OfNullableStr(v.passengers)]
  }
}
