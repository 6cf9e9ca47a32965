# Star Wars blog API: the favourites store

A model of the data layer of a small Flask/SQLAlchemy REST backend. Users
keep favourites, and each favourite points at either a character or a
planet. A favourite is stored as a `Favorite` header row that holds the
owner and a discriminant `type`. It also has exactly one detail row
(`FavoriteCharacter` or `FavoritePlanet`), which reuses the header's
primary key.

- `models.dfy` (module `Models`) covers `src/models.py`. It holds the rows
  as datatypes, the `FavoriteType` enum, the four `serialize` methods as
  functions into a `Json` datatype, and the shared-key rule that ties headers
  to details (`DetailsMatchHeaders`).
- `app.dfy` (module `App`) covers `src/app.py`. The database is one class,
  `Store`, with one map per table (primary key to row) and one key counter
  per table. The counters stand in for the autoincrement key that `flush`
  exposes. Each handler is a method that makes one atomic step, as one commit
  does. It answers with a `Reply`, which is a status code plus a JSON body,
  or `Crash` where the handler raises. `Valid()` is the object invariant:
  - every row sits under its own key;
  - keys come from the counters;
  - emails are unique;
  - a character-typed header has a character detail under the same key and
    no planet detail, and symmetrically for planets;
  - every detail has its header.

  Every handler preserves `Valid()`. The cascades of `src/models.py` become
  explicit removals.
- `scenarios.dfy` (module `Scenarios`) holds example request sequences whose
  replies follow from the handlers' contracts alone. Examples are a duplicate
  email, a favourite of "Luke" with its nested character view, and a delete
  followed by an empty listing.

Behaviour of the code as written that the model keeps:

- Request fields count as missing when Python finds them falsy. A missing
  or empty string is missing. An id of `0` is missing too.
- `POST /favorites` does not check that the user or the entity exists. A
  favourite can therefore point at a missing character or planet. The
  handler then commits the rows, and `Favorite.serialize` raises on them
  (`Crash`). Listing the user's favourites raises in the same way.
- `Favorite.serialize` leaves the nested object out without an error when
  the detail that the discriminant names is missing.
- The two current-user handlers always act for user 1. They do not check for
  an existing equal favourite, so each call adds a new favourite.
- The delete handlers remove *some* favourite of user 1 that matches. The
  query has no `ORDER BY`, so the model leaves the choice open. The removed
  key is returned as a ghost value.
- `GET /characters/<id>` and `GET /planets/<id>` raise on an absent id.

## Model

| member | source | states |
|---|---|---|
| `Models.ParseType` | src/app.py:149-164 | A request's `type` names a favourite type exactly when it is the `.value` of one of the two enum members, and then it names that member. |
| `Models.ParseTypeValue` | src/models.py:9-11 | Each enum member's `.value` parses back to that member. |
| `Models.SerializeUser` | src/models.py:24-28 | A user's view has exactly the keys `id` and `email`. |
| `Models.UserViewExactlyIdAndEmail` | src/models.py:24-28 | Two users have equal views exactly when their ids and emails agree. So the password and the active flag never show, and nothing else is lost. |
| `Models.SerializeCharacter` | src/models.py:40-47 | A character's view has exactly the keys id, name, gender, eye_color and height, and each optional column shows as `null` exactly when it is absent. |
| `Models.CharacterViewInjective` | src/models.py:40-47 | Distinct characters have distinct views, so every column reaches the output. |
| `Models.SerializePlanet` | src/models.py:59-66 | A planet's view has exactly the keys id, name, climate, terrain and population, and each optional column shows as `null` exactly when it is absent. |
| `Models.PlanetViewInjective` | src/models.py:59-66 | Distinct planets have distinct views. |
| `Models.SerializeFavorite` | src/models.py:82-92 | The view always has `id`, `user_id` and `type`, and `type` is the discriminant's value. `character` is present exactly when the type is character and a character detail exists, and it then equals the referenced character's view. The same holds for `planet`. No other keys appear. The view fails exactly when the chosen detail points at a missing row. |
| `Models.ExactlyOneDetail` | src/models.py:79-80 | Under the shared-key rule a header has exactly one detail. It is a character detail exactly when the type is character, and its key is the header's id. |
| `Models.ViewCarriesTarget` | src/models.py:88-91 | Under the shared-key rule, when the target row exists, the view of a character-typed favourite carries the character's view and no `planet` key, and symmetrically for planets. |
| `App.TableScanListsKeys` | src/app.py:50 | A table scan lists every key of the table exactly once, in ascending key order, which is creation order. |
| `App.Scan` | src/app.py:50 | The loop that reads a table returns the scan in key order. |
| `App.Store.CreateUser` | src/app.py:223-236 | A missing or empty email or password gives 400 and changes nothing. An email already in the table gives 400 and changes nothing. Otherwise it adds exactly one user under a fresh key, with that email and password and `is_active` true, and answers 201 with its view. No other table changes, and emails stay unique. |
| `App.Store.CreateCharacter` | src/app.py:240-253 | A missing or empty name gives 400 and changes nothing. Otherwise it adds exactly one character under a fresh key, with the optional columns as given, and answers 201 with its view. |
| `App.Store.CreatePlanet` | src/app.py:257-270 | A missing or empty name gives 400 and changes nothing. Otherwise it adds exactly one planet under a fresh key, with the optional columns as given, and answers 201 with its view. |
| `App.Store.InsertFavorite` | src/app.py:149-161 | It adds one header under a fresh key, and under the same key the detail that the discriminant names, pointing at the entity. The other detail table is unchanged. The shared-key rule is kept. |
| `App.Store.AddFavorite` | src/app.py:140-167 | A falsy user id, type or entity id (0 included) gives 400 and writes nothing. A type other than the two values gives 400 and writes nothing. Otherwise it adds one header with a fresh key and exactly one detail of the matching kind, with no check that the user or entity exists. It answers 201 with the view, or raises when the entity is missing. |
| `App.Store.AddFavoriteCharacter` | src/app.py:98-114 | A missing user 1 or missing character gives 404 and changes nothing. Otherwise it adds a new favourite of user 1 with a character detail under a fresh key, and answers 201. The body holds the nested view of that character and no `planet` key. |
| `App.Store.AddFavoritePlanet` | src/app.py:119-133 | A missing user 1 or missing planet gives 404 and changes nothing. Otherwise it adds a new favourite of user 1 with a planet detail under a fresh key, and answers 201 with the nested planet view. |
| `App.Store.DeleteFavoriteCharacter` | src/app.py:186-198 | When no favourite of user 1 has a character detail pointing at the id, it answers 404 and changes nothing. Otherwise it removes exactly one such header together with its detail, leaves every other favourite untouched, and answers 200. |
| `App.Store.DeleteFavoritePlanet` | src/app.py:202-214 | When no favourite of user 1 has a planet detail pointing at the id, it answers 404 and changes nothing. Otherwise it removes exactly one such header together with its detail, and every other favourite is untouched. |
| `App.Store.DeleteUser` | src/models.py:22 | Deleting a user removes that user, all of that user's favourites and their details, and nothing else. An absent user changes nothing. |
| `App.Store.GetUsers` | src/app.py:49-51 | It answers 200 with the view of every user, each exactly once, in key order. |
| `App.Store.GetCharacters` | src/app.py:57-59 | It answers 200 with the view of every character, each exactly once, in key order. |
| `App.Store.GetPlanets` | src/app.py:71-73 | It answers 200 with the view of every planet, each exactly once, in key order. |
| `App.Store.GetCharacter` | src/app.py:64-66 | It answers 200 with the character's view, and raises exactly when the id is absent. |
| `App.Store.GetPlanet` | src/app.py:77-79 | It answers 200 with the planet's view, and raises exactly when the id is absent. |
| `App.Store.GetCurrentUserFavorites` | src/app.py:85-90 | It lists exactly the favourites whose `user_id` is 1, each once, in key order. It answers 200 with their views, or raises exactly when one of them cannot be viewed. |

## Left out

- Flask routing, CORS, the admin UI, the sitemap and the `/user` test endpoint are not modelled. They are web-framework glue. Request bodies are reduced to the fields each handler reads. A string field is an optional string and an id field is an optional integer, so JSON values of other types are not modelled.
- Database configuration, migrations and server start-up are not modelled. They are I/O and bootstrap.
- SQLAlchemy session mechanics (`flush`, transactions, isolation) are not modelled. Each handler is one atomic update.
- Foreign-key enforcement by the database engine is not modelled. It depends on the backend. `POST /favorites` is modelled as written, with no existence check.
- Ids are unbounded integers. The backend stores them in SQL `INTEGER` columns and raises on an id outside that range, at the flush or at the lookup, committing nothing; that range and that error are not modelled.
- Ids come from a counter and are never reused. A SQLite table without `AUTOINCREMENT` can hand out the key of a deleted last row again, and that is not modelled.
- The delete-by-id endpoint (`DELETE /favorites/<id>`) is commented out in the source and is not modelled.
- Column length limits such as `String(120)` are not modelled. The backend does not enforce them uniformly.
- `FavoriteCharacter.serialize` and `FavoritePlanet.serialize` are not modelled. No handler calls them.
- An unhandled exception is modelled as the reply `Crash`. The status and body that the web framework then sends are not modelled.
- App.Store.GetUsers, App.Store.GetCharacters, App.Store.GetPlanets, App.Store.GetCurrentUserFavorites: `query.all()` has no `ORDER BY`. The model fixes ascending key order, which is stronger than what the database promises.
- App.Store.DeleteUser: no HTTP endpoint deletes users. This method models the ORM cascade that any session delete of a user triggers, for example one from the admin UI.
