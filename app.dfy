/** The request handlers of src/app.py over an in-memory database. Each
    handler is one atomic step (one commit); the tables are maps from
    primary key to row, and every table draws its keys from its own
    counter, as the database's autoincrement key does. */
module App {
  import opened Models

  /** The handlers that act for "the current user" use this fixed id; the
      application has no authentication. */
  const CurrentUserId := 1

  /** What a handler answers: a status and a JSON body, or `Crash` when the
      handler raises (it calls `.serialize()` on None), which the web
      framework turns into an internal error. */
  datatype Reply = Reply(status: int, body: Json) | Crash

  function ErrorReply(status: int, message: string): (r: Reply)
  {
    Reply(status, Object(map["error" := Str(message)]))
  }

  function MsgReply(status: int, message: string): (r: Reply)
  {
    Reply(status, Object(map["msg" := Str(message)]))
  }

  /** Python truthiness of a request field that is a string: missing and
      "" are both falsy. */
  predicate Given(s: Option<string>)
  {
    s.Some? && s.value != ""
  }

  /** Python truthiness of a request field that is an id: missing and 0 are
      both falsy. */
  predicate GivenId(n: Option<int>)
  {
    n.Some? && n.value != 0
  }

  predicate EmailTaken(users: map<int, User>, email: string)
  {
    exists k :: k in users && users[k].email == email
  }

  /** No two users share an email (the unique constraint on `user.email`). */
  ghost predicate UniqueEmails(users: map<int, User>)
  {
    forall j, k :: j in users && k in users && users[j].email == users[k].email ==> j == k
  }

  /** The favourite ids of one user. */
  function FavoriteIdsOf(favorites: map<int, Favorite>, userId: int): (ids: set<int>)
  {
    set k | k in favorites && favorites[k].userId == userId
  }

  /** The delete-by-detail handlers' query: a favourite of `userId` joined to
      its character detail, whose foreign key is `characterId`. */
  predicate CharacterFavoriteOf(
    favorites: map<int, Favorite>, favoriteCharacters: map<int, FavoriteCharacter>,
    k: int, userId: int, characterId: int)
  {
    k in favorites && favorites[k].userId == userId && k in favoriteCharacters && favoriteCharacters[k].characterId == characterId
  }

  predicate PlanetFavoriteOf(
    favorites: map<int, Favorite>, favoritePlanets: map<int, FavoritePlanet>,
    k: int, userId: int, planetId: int)
  {
    k in favorites && favorites[k].userId == userId && k in favoritePlanets && favoritePlanets[k].planetId == planetId
  }

  // ---------------------------------------------------------------------
  // Table scans
  // ---------------------------------------------------------------------

  /** The keys in `keys` among 1 .. next-1, in ascending order: a table
      scan in primary-key order, which for autoincrement keys is the order
      of creation. */
  function TableScan(keys: set<int>, next: int): (ids: seq<int>)
    decreases next
  {
    if next <= 1 then [] else TableScan(keys, next - 1) + (if next - 1 in keys then [next - 1] else [])
  }

  /** A scan lists each key in range exactly once, in strictly ascending order. */
  lemma {:induction false} TableScanListsKeys(keys: set<int>, next: int)
    ensures forall k :: k in TableScan(keys, next) <==> k in keys && 1 <= k < next
    ensures forall i, j :: 0 <= i < j < |TableScan(keys, next)| ==> TableScan(keys, next)[i] < TableScan(keys, next)[j]
    decreases next
  {
    if next > 1 {
      TableScanListsKeys(keys, next - 1);
      var before := TableScan(keys, next - 1);
      assert forall i :: 0 <= i < |before| ==> before[i] in before && before[i] < next - 1;
    }
  }

  /** `query.all()` over a table whose keys lie in 1 .. next-1. */
  method Scan(keys: set<int>, next: int) returns (ids: seq<int>)
    requires next >= 1
    requires forall k :: k in keys ==> 1 <= k < next
    ensures ids == TableScan(keys, next)
    ensures forall k :: k in ids <==> k in keys
    ensures forall i, j :: 0 <= i < j < |ids| ==> ids[i] < ids[j]
  {
    ids := [];
    var i := 1;
    while i < next
      invariant 1 <= i <= next
      invariant ids == TableScan(keys, i)
    {
      if i in keys {
        ids := ids + [i];
      }
      i := i + 1;
    }
    TableScanListsKeys(keys, next);
  }

  // ---------------------------------------------------------------------
  // What each table keeps
  // ---------------------------------------------------------------------

  /** Users sit under their own keys, below the next key, with unique emails. */
  ghost predicate UsersKeyed(users: map<int, User>, next: int)
  {
    && 1 <= next
    && (forall k :: k in users ==> users[k].id == k && 1 <= k < next)
    && UniqueEmails(users)
  }

  ghost predicate CharactersKeyed(characters: map<int, Character>, next: int)
  {
    1 <= next && forall k :: k in characters ==> characters[k].id == k && 1 <= k < next
  }

  ghost predicate PlanetsKeyed(planets: map<int, Planet>, next: int)
  {
    1 <= next && forall k :: k in planets ==> planets[k].id == k && 1 <= k < next
  }

  /** Favourite headers sit below the next key and the details follow the
      shared-key rule. */
  ghost predicate FavoritesKeyed(
    favorites: map<int, Favorite>,
    favoriteCharacters: map<int, FavoriteCharacter>,
    favoritePlanets: map<int, FavoritePlanet>,
    next: int)
  {
    && 1 <= next
    && (forall k :: k in favorites ==> 1 <= k < next)
    && DetailsMatchHeaders(favorites, favoriteCharacters, favoritePlanets)
  }

  // ---------------------------------------------------------------------
  // The database
  // ---------------------------------------------------------------------

  class Store {
    var users: map<int, User>
    var characters: map<int, Character>
    var planets: map<int, Planet>
    var favorites: map<int, Favorite>
    var favoriteCharacters: map<int, FavoriteCharacter>
    var favoritePlanets: map<int, FavoritePlanet>

    // the next key each table hands out
    var nextUserId: int
    var nextCharacterId: int
    var nextPlanetId: int
    var nextFavoriteId: int

    /** Every row sits under its own key, keys come from the counters, emails
        are unique, and the favourite tables keep the shared-key rule. */
    ghost predicate Valid()
      reads this
    {
      && UsersKeyed(users, nextUserId)
      && CharactersKeyed(characters, nextCharacterId)
      && PlanetsKeyed(planets, nextPlanetId)
      && FavoritesKeyed(favorites, favoriteCharacters, favoritePlanets, nextFavoriteId)
    }

    /** An empty database. */
    constructor ()
      ensures Valid()
      ensures users == map[] && characters == map[] && planets == map[]
      ensures favorites == map[] && favoriteCharacters == map[] && favoritePlanets == map[]
      ensures nextUserId == 1 && nextCharacterId == 1 && nextPlanetId == 1 && nextFavoriteId == 1
    {
      users, characters, planets := map[], map[], map[];
      favorites, favoriteCharacters, favoritePlanets := map[], map[], map[];
      nextUserId, nextCharacterId, nextPlanetId, nextFavoriteId := 1, 1, 1, 1;
    }

    /** A favourite's view as `Favorite.serialize` builds it from the rows
        loaded through its relationships. */
    function FavoriteView(k: int): (view: Option<Json>)
      reads this
      requires k in favorites
    {
      SerializeFavorite(favorites[k],
        if k in favoriteCharacters then Some(favoriteCharacters[k]) else None,
        if k in favoritePlanets then Some(favoritePlanets[k]) else None,
        characters, planets)
    }

    // -------------------------------------------------------------------
    // Creating users, characters and planets
    // -------------------------------------------------------------------

    /** POST /users */
    method CreateUser(email: Option<string>, password: Option<string>) returns (reply: Reply)
      requires Valid()
      modifies this`users, this`nextUserId
      ensures Valid()
      ensures !Given(email) || !Given(password) ==>
        reply == ErrorReply(400, "Email and password are required") && unchanged(this)
      ensures Given(email) && Given(password) && EmailTaken(old(users), email.value) ==>
        reply == ErrorReply(400, "Email already exists") && unchanged(this)
      ensures Given(email) && Given(password) && !EmailTaken(old(users), email.value) ==>
        var u := User(old(nextUserId), email.value, password.value, true);
        && u.id !in old(users)
        && users == old(users)[u.id := u]
        && nextUserId == old(nextUserId) + 1
        && reply == Reply(201, SerializeUser(u))
    {
      if !Given(email) || !Given(password) {
        return ErrorReply(400, "Email and password are required");
      }
      if EmailTaken(users, email.value) {
        return ErrorReply(400, "Email already exists");
      }
      var u := User(nextUserId, email.value, password.value, true);
      users := users[u.id := u];
      nextUserId := nextUserId + 1;
      reply := Reply(201, SerializeUser(u));
    }

    /** POST /characters: every optional column is stored as given. */
    method CreateCharacter(name: Option<string>, gender: Option<string>, eyeColor: Option<string>, height: Option<string>)
      returns (reply: Reply)
      requires Valid()
      modifies this`characters, this`nextCharacterId
      ensures Valid()
      ensures !Given(name) ==> reply == ErrorReply(400, "Name is required") && unchanged(this)
      ensures Given(name) ==>
        var c := Character(old(nextCharacterId), name.value, gender, eyeColor, height);
        && c.id !in old(characters)
        && characters == old(characters)[c.id := c]
        && nextCharacterId == old(nextCharacterId) + 1
        && reply == Reply(201, SerializeCharacter(c))
    {
      if !Given(name) {
        return ErrorReply(400, "Name is required");
      }
      var c := Character(nextCharacterId, name.value, gender, eyeColor, height);
      characters := characters[c.id := c];
      nextCharacterId := nextCharacterId + 1;
      reply := Reply(201, SerializeCharacter(c));
    }

    /** POST /planets: every optional column is stored as given. */
    method CreatePlanet(name: Option<string>, climate: Option<string>, terrain: Option<string>, population: Option<string>)
      returns (reply: Reply)
      requires Valid()
      modifies this`planets, this`nextPlanetId
      ensures Valid()
      ensures !Given(name) ==> reply == ErrorReply(400, "Name is required") && unchanged(this)
      ensures Given(name) ==>
        var p := Planet(old(nextPlanetId), name.value, climate, terrain, population);
        && p.id !in old(planets)
        && planets == old(planets)[p.id := p]
        && nextPlanetId == old(nextPlanetId) + 1
        && reply == Reply(201, SerializePlanet(p))
    {
      if !Given(name) {
        return ErrorReply(400, "Name is required");
      }
      var p := Planet(nextPlanetId, name.value, climate, terrain, population);
      planets := planets[p.id := p];
      nextPlanetId := nextPlanetId + 1;
      reply := Reply(201, SerializePlanet(p));
    }

    // -------------------------------------------------------------------
    // Creating favourites
    // -------------------------------------------------------------------

    /** The write shared by the three favourite handlers: a header under a
        fresh key, then the detail the discriminant names under the same
        key, committed together. */
    method InsertFavorite(userId: int, favoriteType: FavoriteType, entityId: int) returns (id: int)
      requires Valid()
      modifies this`favorites, this`favoriteCharacters, this`favoritePlanets, this`nextFavoriteId
      ensures Valid()
      ensures id == old(nextFavoriteId) && id !in old(favorites) && nextFavoriteId == id + 1
      ensures favorites == old(favorites)[id := Favorite(id, userId, favoriteType)]
      ensures favoriteType == CharacterType ==>
        favoriteCharacters == old(favoriteCharacters)[id := FavoriteCharacter(id, entityId)] && favoritePlanets == old(favoritePlanets)
      ensures favoriteType == PlanetType ==>
        favoritePlanets == old(favoritePlanets)[id := FavoritePlanet(id, entityId)] && favoriteCharacters == old(favoriteCharacters)
    {
      id := nextFavoriteId;
      favorites := favorites[id := Favorite(id, userId, favoriteType)];
      nextFavoriteId := nextFavoriteId + 1;
      match favoriteType
      case CharacterType =>
        favoriteCharacters := favoriteCharacters[id := FavoriteCharacter(id, entityId)];
      case PlanetType =>
        favoritePlanets := favoritePlanets[id := FavoritePlanet(id, entityId)];
    }

    /** POST /favorites: nothing checks that the user or the entity exists,
        so the view of the new favourite can raise after the commit. */
    method AddFavorite(userId: Option<int>, favoriteType: Option<string>, entityId: Option<int>) returns (reply: Reply)
      requires Valid()
      modifies this`favorites, this`favoriteCharacters, this`favoritePlanets, this`nextFavoriteId
      ensures Valid()
      ensures !GivenId(userId) || !Given(favoriteType) || !GivenId(entityId) ==>
        reply == ErrorReply(400, "Missing user_id, type, or entity_id") && unchanged(this)
      ensures GivenId(userId) && Given(favoriteType) && GivenId(entityId) && ParseType(favoriteType.value).None? ==>
        reply == ErrorReply(400, "Invalid favorite type") && unchanged(this)
      ensures GivenId(userId) && Given(favoriteType) && GivenId(entityId) && ParseType(favoriteType.value).Some? ==>
        var id, t := old(nextFavoriteId), ParseType(favoriteType.value).value;
        && id !in old(favorites)
        && nextFavoriteId == id + 1
        && favorites == old(favorites)[id := Favorite(id, userId.value, t)]
        && (t == CharacterType ==>
              favoriteCharacters == old(favoriteCharacters)[id := FavoriteCharacter(id, entityId.value)]
              && favoritePlanets == old(favoritePlanets))
        && (t == PlanetType ==>
              favoritePlanets == old(favoritePlanets)[id := FavoritePlanet(id, entityId.value)]
              && favoriteCharacters == old(favoriteCharacters))
        && reply == (if FavoriteView(id).Some? then Reply(201, FavoriteView(id).value) else Crash)
    {
      if !GivenId(userId) || !Given(favoriteType) || !GivenId(entityId) {
        return ErrorReply(400, "Missing user_id, type, or entity_id");
      }
      var t := ParseType(favoriteType.value);
      if t.None? {
        return ErrorReply(400, "Invalid favorite type");
      }
      var id := InsertFavorite(userId.value, t.value, entityId.value);
      var view := FavoriteView(id);
      reply := if view.Some? then Reply(201, view.value) else Crash;
    }

    /** POST /users/favorites/characters/<id>: the current user and the
        character must exist; there is no check for an equal favourite, so
        every call adds a new one. */
    method AddFavoriteCharacter(characterId: int) returns (reply: Reply)
      requires Valid()
      modifies this`favorites, this`favoriteCharacters, this`favoritePlanets, this`nextFavoriteId
      ensures Valid()
      ensures CurrentUserId !in users || characterId !in characters ==>
        reply == MsgReply(404, "Usuario o personaje no encontrado") && unchanged(this)
      ensures CurrentUserId in users && characterId in characters ==>
        var id := old(nextFavoriteId);
        && id !in old(favorites)
        && nextFavoriteId == id + 1
        && favorites == old(favorites)[id := Favorite(id, CurrentUserId, CharacterType)]
        && favoriteCharacters == old(favoriteCharacters)[id := FavoriteCharacter(id, characterId)]
        && favoritePlanets == old(favoritePlanets)
        && reply.Reply? && reply.status == 201
        && reply.body == Object(map[
             "id" := Int(id), "user_id" := Int(CurrentUserId), "type" := Str("character"),
             "character" := SerializeCharacter(characters[characterId])])
    {
      if CurrentUserId !in users || characterId !in characters {
        return MsgReply(404, "Usuario o personaje no encontrado");
      }
      var id := InsertFavorite(CurrentUserId, CharacterType, characterId);
      var view := FavoriteView(id);
      reply := Reply(201, view.value);
    }

    /** POST /users/favorites/planets/<id>: the current user and the planet
        must exist; every call adds a new favourite. */
    method AddFavoritePlanet(planetId: int) returns (reply: Reply)
      requires Valid()
      modifies this`favorites, this`favoriteCharacters, this`favoritePlanets, this`nextFavoriteId
      ensures Valid()
      ensures CurrentUserId !in users || planetId !in planets ==>
        reply == MsgReply(404, "Usuario o planeta no encontrado") && unchanged(this)
      ensures CurrentUserId in users && planetId in planets ==>
        var id := old(nextFavoriteId);
        && id !in old(favorites)
        && nextFavoriteId == id + 1
        && favorites == old(favorites)[id := Favorite(id, CurrentUserId, PlanetType)]
        && favoritePlanets == old(favoritePlanets)[id := FavoritePlanet(id, planetId)]
        && favoriteCharacters == old(favoriteCharacters)
        && reply.Reply? && reply.status == 201
        && reply.body == Object(map[
             "id" := Int(id), "user_id" := Int(CurrentUserId), "type" := Str("planet"),
             "planet" := SerializePlanet(planets[planetId])])
    {
      if CurrentUserId !in users || planetId !in planets {
        return MsgReply(404, "Usuario o planeta no encontrado");
      }
      var id := InsertFavorite(CurrentUserId, PlanetType, planetId);
      var view := FavoriteView(id);
      reply := Reply(201, view.value);
    }

    // -------------------------------------------------------------------
    // Deleting
    // -------------------------------------------------------------------

    /** DELETE /users/favorites/characters/<id>: removes some favourite of
        the current user whose character detail points at `characterId`
        (the query has no ORDER BY, so which one is left open), and its
        detail with it. */
    method DeleteFavoriteCharacter(characterId: int) returns (reply: Reply, ghost deleted: int)
      requires Valid()
      modifies this`favorites, this`favoriteCharacters, this`favoritePlanets
      ensures Valid()
      ensures (forall k :: !CharacterFavoriteOf(old(favorites), old(favoriteCharacters), k, CurrentUserId, characterId)) ==>
        reply == MsgReply(404, "Favorito no encontrado") && unchanged(this)
      ensures (exists k :: CharacterFavoriteOf(old(favorites), old(favoriteCharacters), k, CurrentUserId, characterId)) ==>
        && reply == MsgReply(200, "Favorito eliminado")
        && CharacterFavoriteOf(old(favorites), old(favoriteCharacters), deleted, CurrentUserId, characterId)
        && favorites == old(favorites) - {deleted}
        && favoriteCharacters == old(favoriteCharacters) - {deleted}
        && favoritePlanets == old(favoritePlanets)
    {
      deleted := 0;
      if !exists k | k in favorites :: CharacterFavoriteOf(favorites, favoriteCharacters, k, CurrentUserId, characterId) {
        reply := MsgReply(404, "Favorito no encontrado");
        return;
      }
      var k :| k in favorites && CharacterFavoriteOf(favorites, favoriteCharacters, k, CurrentUserId, characterId);
      deleted := k;
      // the header goes, and the cascade takes whichever detail it has
      favorites := favorites - {k};
      favoriteCharacters := favoriteCharacters - {k};
      favoritePlanets := favoritePlanets - {k};
      reply := MsgReply(200, "Favorito eliminado");
    }

    /** DELETE /users/favorites/planets/<id>: removes some favourite of the
        current user whose planet detail points at `planetId`, and its
        detail with it. */
    method DeleteFavoritePlanet(planetId: int) returns (reply: Reply, ghost deleted: int)
      requires Valid()
      modifies this`favorites, this`favoriteCharacters, this`favoritePlanets
      ensures Valid()
      ensures (forall k :: !PlanetFavoriteOf(old(favorites), old(favoritePlanets), k, CurrentUserId, planetId)) ==>
        reply == MsgReply(404, "Favorito no encontrado") && unchanged(this)
      ensures (exists k :: PlanetFavoriteOf(old(favorites), old(favoritePlanets), k, CurrentUserId, planetId)) ==>
        && reply == MsgReply(200, "Favorito eliminado")
        && PlanetFavoriteOf(old(favorites), old(favoritePlanets), deleted, CurrentUserId, planetId)
        && favorites == old(favorites) - {deleted}
        && favoritePlanets == old(favoritePlanets) - {deleted}
        && favoriteCharacters == old(favoriteCharacters)
    {
      deleted := 0;
      if !exists k | k in favorites :: PlanetFavoriteOf(favorites, favoritePlanets, k, CurrentUserId, planetId) {
        reply := MsgReply(404, "Favorito no encontrado");
        return;
      }
      var k :| k in favorites && PlanetFavoriteOf(favorites, favoritePlanets, k, CurrentUserId, planetId);
      deleted := k;
      favorites := favorites - {k};
      favoriteCharacters := favoriteCharacters - {k};
      favoritePlanets := favoritePlanets - {k};
      reply := MsgReply(200, "Favorito eliminado");
    }

    /** Deleting a user through the ORM (the admin UI does; no endpoint of
        the API does): the delete-orphan cascade on `User.favorites` takes
        every favourite of the user, and each header's cascade its detail. */
    method DeleteUser(userId: int) returns (found: bool)
      requires Valid()
      modifies this`users, this`favorites, this`favoriteCharacters, this`favoritePlanets
      ensures Valid()
      ensures found == (userId in old(users))
      ensures !found ==> unchanged(this)
      ensures found ==>
        && users == old(users) - {userId}
        && favorites == old(favorites) - FavoriteIdsOf(old(favorites), userId)
        && favoriteCharacters == old(favoriteCharacters) - FavoriteIdsOf(old(favorites), userId)
        && favoritePlanets == old(favoritePlanets) - FavoriteIdsOf(old(favorites), userId)
    {
      found := userId in users;
      if !found {
        return;
      }
      var gone := FavoriteIdsOf(favorites, userId);
      users := users - {userId};
      favorites := favorites - gone;
      favoriteCharacters := favoriteCharacters - gone;
      favoritePlanets := favoritePlanets - gone;
    }

    // -------------------------------------------------------------------
    // Reading
    // -------------------------------------------------------------------

    /** GET /users: every user's view, in key order. */
    method GetUsers() returns (reply: Reply, ghost ids: seq<int>)
      requires Valid()
      ensures forall k :: k in ids <==> k in users
      ensures forall i, j :: 0 <= i < j < |ids| ==> ids[i] < ids[j]
      ensures reply.Reply? && reply.status == 200 && reply.body.Array?
      ensures |reply.body.items| == |ids|
      ensures forall i :: 0 <= i < |ids| ==> ids[i] in users && reply.body.items[i] == SerializeUser(users[ids[i]])
    {
      var keys := Scan(users.Keys, nextUserId);
      ids := keys;
      var rows := users;
      forall i | 0 <= i < |keys| ensures keys[i] in rows {
        assert keys[i] in keys;
      }
      reply := Reply(200, Array(seq(|keys|, i requires 0 <= i < |keys| => SerializeUser(rows[keys[i]]))));
    }

    /** GET /characters: every character's view, in key order. */
    method GetCharacters() returns (reply: Reply, ghost ids: seq<int>)
      requires Valid()
      ensures forall k :: k in ids <==> k in characters
      ensures forall i, j :: 0 <= i < j < |ids| ==> ids[i] < ids[j]
      ensures reply.Reply? && reply.status == 200 && reply.body.Array?
      ensures |reply.body.items| == |ids|
      ensures forall i :: 0 <= i < |ids| ==> ids[i] in characters && reply.body.items[i] == SerializeCharacter(characters[ids[i]])
    {
      var keys := Scan(characters.Keys, nextCharacterId);
      ids := keys;
      var rows := characters;
      forall i | 0 <= i < |keys| ensures keys[i] in rows {
        assert keys[i] in keys;
      }
      reply := Reply(200, Array(seq(|keys|, i requires 0 <= i < |keys| => SerializeCharacter(rows[keys[i]]))));
    }

    /** GET /planets: every planet's view, in key order. */
    method GetPlanets() returns (reply: Reply, ghost ids: seq<int>)
      requires Valid()
      ensures forall k :: k in ids <==> k in planets
      ensures forall i, j :: 0 <= i < j < |ids| ==> ids[i] < ids[j]
      ensures reply.Reply? && reply.status == 200 && reply.body.Array?
      ensures |reply.body.items| == |ids|
      ensures forall i :: 0 <= i < |ids| ==> ids[i] in planets && reply.body.items[i] == SerializePlanet(planets[ids[i]])
    {
      var keys := Scan(planets.Keys, nextPlanetId);
      ids := keys;
      var rows := planets;
      forall i | 0 <= i < |keys| ensures keys[i] in rows {
        assert keys[i] in keys;
      }
      reply := Reply(200, Array(seq(|keys|, i requires 0 <= i < |keys| => SerializePlanet(rows[keys[i]]))));
    }

    /** GET /characters/<id>: raises when there is no such character. */
    method GetCharacter(characterId: int) returns (reply: Reply)
      requires Valid()
      ensures characterId !in characters <==> reply.Crash?
      ensures characterId in characters ==> reply == Reply(200, SerializeCharacter(characters[characterId]))
    {
      if characterId !in characters {
        return Crash;
      }
      reply := Reply(200, SerializeCharacter(characters[characterId]));
    }

    /** GET /planets/<id>: raises when there is no such planet. */
    method GetPlanet(planetId: int) returns (reply: Reply)
      requires Valid()
      ensures planetId !in planets <==> reply.Crash?
      ensures planetId in planets ==> reply == Reply(200, SerializePlanet(planets[planetId]))
    {
      if planetId !in planets {
        return Crash;
      }
      reply := Reply(200, SerializePlanet(planets[planetId]));
    }

    /** GET /users/favorites: the views of exactly the current user's
        favourites, in key order; raises if one of them cannot be viewed. */
    method GetCurrentUserFavorites() returns (reply: Reply, ghost ids: seq<int>)
      requires Valid()
      ensures ids == TableScan(FavoriteIdsOf(favorites, CurrentUserId), nextFavoriteId)
      ensures forall k :: k in ids <==> k in favorites && favorites[k].userId == CurrentUserId
      ensures forall i, j :: 0 <= i < j < |ids| ==> ids[i] < ids[j]
      ensures reply.Crash? <==> exists k :: k in ids && FavoriteView(k).None?
      ensures reply.Reply? ==>
        && reply.status == 200 && reply.body.Array?
        && |reply.body.items| == |ids|
        && forall i :: 0 <= i < |ids| ==> Some(reply.body.items[i]) == FavoriteView(ids[i])
    {
      var keys := Scan(FavoriteIdsOf(favorites, CurrentUserId), nextFavoriteId);
      ids := keys;
      forall i | 0 <= i < |keys| ensures keys[i] in favorites {
        assert keys[i] in keys;
      }
      var views: seq<Json> := [];
      var n := 0;
      while n < |keys|
        invariant 0 <= n <= |keys|
        invariant |views| == n
        invariant forall i :: 0 <= i < n ==> Some(views[i]) == FavoriteView(keys[i])
      {
        var view := FavoriteView(keys[n]);
        if view.None? {
          return Crash, ids;
        }
        views := views + [view.value];
        n := n + 1;
      }
      reply := Reply(200, Array(views));
    }
  }
}
