# Star Wars favorites API — Dafny model

This project models the core of a small Flask/SQLAlchemy REST API. The API serves a
read-only catalog of users, people, planets and vehicles. It also keeps a
`Favorito` table that links a user to one person, planet or vehicle. The model covers
the five database models (their columns and their `serialize()` projections) and every
HTTP handler that reads the catalog or reads and changes the favorites table.

Modules:

- `Json` (`json.dfy`): the JSON scalars a serializer produces (`Null`, `Int`, `Str`) and
  readers for single fields.
- `Tables` (`tables.dfy`): the query operations the handlers use, over a table held as a
  sequence of rows in insertion order. These are `query.get` (`FindById`),
  `filter_by(...).first()` (`FirstWhere`), `filter_by(...).all()` (`Filter`) and
  `session.delete` (`RemoveAt`).
- `Models` (`models.dfy`): `Favorito`, `User`, `People`, `Planet` and `Vehicle` as
  datatypes. A nullable column is an `Option` and a required one is a plain value. The
  module also holds the declared widths and uniqueness as predicates, and each
  `serialize()` together with a reader. Each serializer's contract gives its exact key
  set and the round trip back to the row.
- `Favorites` (`favorites.dfy`): the target kind `PersonKind | PlanetKind | VehicleKind`,
  the row an add builds, the row a delete picks, and the table properties across adds
  and deletes.
- `App` (`app.dfy`): the handlers. A handler's outcome is `Ok(body)` for status 200 or
  `Err(status, message)` for an `APIException`. The request body's `user_id` is an
  `Option<int>`. Read handlers are functions of the tables they query. The favorites
  table is the class `FavoritoTable`, with fields `rows` and `nextId`. Its add and delete
  methods change those fields in place. The three copy-pasted add handlers become one
  generic `AddFavorite`, and the three delete handlers one generic `DeleteFavorite`.
  Each per-kind handler delegates to the generic one. Its contract is stated in the
  source's own per-kind terms, for example `Favorito(user_id=..., planet_id=...)` or
  `filter_by(user_id=..., planet_id=...)`.

Adding a favorite never looks up the user or the target, so `AddFavorite` succeeds for
any integer ids.

## Model

| member | source | states |
|---|---|---|
| `Tables.FirstWhere` | src/app.py:124-125 | `.first()` gives the earliest row meeting the filter, and gives none exactly when no row meets it |
| `Tables.FindById` | src/app.py:56-57 | `query.get(id)` finds a row whose primary key is `id`, and finds none exactly when no row has that key |
| `Tables.FindByIdStored` | src/app.py:56 | with unique primary keys, `query.get` of a stored row's id finds that very row |
| `Tables.Filter` | src/app.py:103 | `filter_by(...).all()` returns only rows of the table that meet the filter and every such row; its length is their count |
| `Tables.RemoveAt` | src/app.py:128 | `session.delete` removes exactly one row; the rows before and after it keep their order; the multiset of rows loses just that row |
| `Tables.CountRemoveAt` | src/app.py:128 | deleting a row lowers the count of rows meeting a filter by one exactly when the deleted row meets it |
| `Tables.RemoveAtKey` | src/app.py:128-129 | after a delete the primary key stays unique and the deleted row's id is gone from the table |
| `Models.UserNameEmailIdentify` | src/models.py:28-30 | in a user table with `unique=True` on name and on email, each name and each email belongs to one user |
| `Models.SerializeFavorito` | src/models.py:17-24 | output keys are exactly id, user_id, person_id, planet_id and vehicle_id; reading them back gives the row unchanged, with null for an unset target |
| `Models.SerializeUser` | src/models.py:38-44 | output keys are exactly id, name, last_name and email, never password or is_active; every other field is recovered unchanged |
| `Models.SerializeUserHidesSecrets` | src/models.py:38-44 | two users serialize alike exactly when they differ at most in password and is_active |
| `Models.SerializePeople` | src/models.py:57-64 | output keys are exactly id, name, height, mass and gender; reading them back gives the row unchanged |
| `Models.SerializePlanet` | src/models.py:78-86 | output keys are exactly id, name, diameter, population, climate and terrain; reading them back gives the row unchanged |
| `Models.SerializeVehicle` | src/models.py:99-106 | output keys are exactly id, name, length, crew and passengers; a null length stays null; reading them back gives the row unchanged |
| `Favorites.Target` | src/models.py:8-10 | a row read as a tagged union has a target exactly when one of the three target columns is set, and then the other two are null |
| `Favorites.NewFavorito` | src/app.py:113 | the row an add builds carries the given user and id, sets the chosen target column to the target id, and leaves the other two null |
| `Favorites.PerKindFiltersAgree` | src/app.py:124 | the generic first match picks the same row as each handler's own `filter_by(user_id, person_id / planet_id / vehicle_id).first()` |
| `Favorites.FavoritesOf` | src/app.py:103 | a user's favorites are rows of the table with that user_id, and every row with that user_id is among them |
| `Favorites.AddKeepsSingleTarget` | src/app.py:113-115 | if every row has exactly one target set, that still holds after an add |
| `Favorites.DeleteKeepsSingleTarget` | src/app.py:124-129 | if every row has exactly one target set, that still holds after a delete |
| `Favorites.AddedFavoriteListed` | src/app.py:113-116 | an added row is among its user's favorites |
| `Favorites.AddThenDeleteRestoresCount` | src/app.py:113-130 | after an add then a delete of the same (user, kind, target), the delete finds a row, the count of matching rows is back to its old value, and the deleted row is an older duplicate whenever one existed |
| `Favorites.DeleteOnlyMatchThenNotFound` | src/app.py:124-130 | when exactly one row matches, a delete removes it and a second delete finds no match (a 404) |
| `App.GetAllPeople` | src/app.py:48-52 | never fails; one element per stored person, in table order, each with exactly the `People.serialize()` keys and reading back as that person |
| `App.GetAllPlanets` | src/app.py:61-65 | never fails; one element per stored planet, in table order, each with exactly the `Planet.serialize()` keys and reading back as that planet |
| `App.GetAllVehicles` | src/app.py:74-78 | never fails; one element per stored vehicle, in table order, each with exactly the `Vehicle.serialize()` keys and reading back as that vehicle |
| `App.GetAllUsers` | src/app.py:87-91 | never fails; one element per stored user with exactly the public keys, each reading back as that user apart from password and is_active |
| `App.GetSinglePerson` | src/app.py:54-59 | fails exactly when no person has the id, with 404 'Person not found'; otherwise returns a stored person with that id, with exactly its serializer's keys |
| `App.GetSinglePlanet` | src/app.py:67-72 | fails exactly when no planet has the id, with 404 'Planet not found'; otherwise returns a stored planet with that id, with exactly its serializer's keys |
| `App.GetSingleVehicle` | src/app.py:80-85 | fails exactly when no vehicle has the id, with 404 'Vehicle not found'; otherwise returns a stored vehicle with that id, with exactly its serializer's keys |
| `App.GetSinglePersonStored` | src/app.py:54-59 | in a valid table (unique primary keys, values within the declared column widths), the person stored under an id is exactly what is returned for it |
| `App.GetSinglePlanetStored` | src/app.py:67-72 | in a valid table (unique primary keys, values within the declared column widths), the planet stored under an id is exactly what is returned for it |
| `App.GetSingleVehicleStored` | src/app.py:80-85 | in a valid table (unique primary keys, values within the declared column widths), the vehicle stored under an id is exactly what is returned for it |
| `App.PlanetLookupExample` | src/app.py:67-72 | for a table holding planet 1 'Tatooine', id 1 returns that name and id 999 returns 404 'Planet not found' |
| `App.GetUserFavorites` | src/app.py:93-105 | missing user_id gives 400 'User ID is required', checked before anything else; an unknown user gives 404 'User not found'; otherwise the result is exactly the favorites with that user_id, as many as there are |
| `App.SerializeFavoritos` | src/app.py:104 | one serialized element per favorite, in order, each reading back as that favorite, and every favorite's serialization among them |
| `App.AddedFavoriteInUserList` | src/app.py:93-116 | after an add for a known user, that user's favorites list includes the new row, which carries the chosen target and no other |
| `App.FavoritoTable.AddFavorite` | src/app.py:107-116 | missing user_id gives 400 and no change; otherwise exactly one row is appended, older rows untouched, and that row is returned; the user and target are not checked; single-target rows stay single-target |
| `App.FavoritoTable.DeleteFavorite` | src/app.py:118-130 | missing user_id gives 400 and no change; no match gives 404 'Favorite not found' and no change; otherwise exactly the first match is removed and returned, other rows keep their order, and its id is gone |
| `App.FavoritoTable.AddFavoritePlanet` | src/app.py:107-116 | as `AddFavorite`, with the new row `Favorito(user_id, planet_id)` and null person_id and vehicle_id |
| `App.FavoritoTable.AddFavoritePeople` | src/app.py:132-141 | as `AddFavorite`, with the new row `Favorito(user_id, person_id)` and null planet_id and vehicle_id |
| `App.FavoritoTable.AddFavoriteVehicle` | src/app.py:157-166 | as `AddFavorite`, with the new row `Favorito(user_id, vehicle_id)` and null person_id and planet_id |
| `App.FavoritoTable.DeleteFavoritePlanet` | src/app.py:118-130 | 400 without user_id; otherwise removes and returns the first row of `filter_by(user_id, planet_id)`, or 404 when there is none |
| `App.FavoritoTable.DeleteFavoritePeople` | src/app.py:143-155 | 400 without user_id; otherwise removes and returns the first row of `filter_by(user_id, person_id)`, or 404 when there is none |
| `App.FavoritoTable.DeleteFavoriteVehicle` | src/app.py:168-180 | 400 without user_id; otherwise removes and returns the first row of `filter_by(user_id, vehicle_id)`, or 404 when there is none |

## Left out

- Application bootstrap (src/app.py:15-28): the environment-dependent database URL, Migrate, CORS and the admin setup. The `__main__` server start (src/app.py:184-186) is also left out. These are configuration and I/O.
- The sitemap route and the constant `/user` greeting route (src/app.py:36-45). The first calls a helper that is not part of this model, and the second has no logic.
- JSON rendering of errors in `handle_invalid_usage` (src/app.py:31-33). An error is the value `Err(status, message)`.
- The SQLAlchemy session, commit durability and transaction isolation. Each handler is one atomic state change, and concurrent requests are not modelled.
- Row order of `query.all()` and `.first()`. The database promises no order. The model uses insertion order and claims no database order.
- Request parsing. A body that is not JSON, or a `user_id` that is not an integer, is not modelled. `user_id` is only present (an integer) or absent.
- Foreign-key enforcement by the database engine. The handlers do not check that the user or target exists. The default SQLite database does not enforce foreign keys either. An engine that enforces them would make the commit fail, and that case is not modelled.
- Column widths (`String(20)` and the like) are stated as table-validity predicates, which the get-by-id lemmas assume. No modelled operation writes catalog rows, so nothing enforces them.
- Integer columns are unbounded `int`. A database integer width is not modelled.
- Primary-key assignment. Autoincrement is modelled as the counter `nextId`, which yields a fresh id above every stored one. Gaps and reuse of ids by the engine are not modelled.
- The catalog tables are sequences whose primary-key uniqueness is the predicate `UniqueBy`. They are not maps. The system has no endpoint that creates or changes catalog rows.
- `db.relationship` back-references and the `__repr__` methods in src/models.py. They do not affect any handler's outcome.
- migrations/versions/2ab45bd279a1_.py is not part of this model. It is a schema-migration script with no logic.
