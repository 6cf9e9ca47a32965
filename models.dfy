/** The record types of the Star Wars blog API (src/models.py), their JSON
    views, and the shared-key rules that tie a Favorite header to its one
    detail row. Everything here is a value: the tables that hold these
    records live in module App. */
module Models {

  datatype Option<T> = None | Some(value: T)

  /** A JSON value, as the handlers hand it to `jsonify`. */
  datatype Json =
    | Null
    | Bool(b: bool)
    | Int(i: int)
    | Str(s: string)
    | Array(items: seq<Json>)
    | Object(fields: map<string, Json>)

  /** A nullable string column as JSON: SQL NULL becomes `null`. */
  function Nullable(s: Option<string>): (j: Json)
  {
    if s.Some? then Str(s.value) else Null
  }

  // ---------------------------------------------------------------------
  // The discriminant of a favourite
  // ---------------------------------------------------------------------

  /** The two members of the `FavoriteType` enum. */
  datatype FavoriteType = CharacterType | PlanetType

  /** The enum member's `.value`. */
  function TypeValue(t: FavoriteType): (s: string)
  {
    match t
    case CharacterType => "character"
    case PlanetType => "planet"
  }

  /** The string comparison the generic favourite handler performs on the
      request's `type`: only the two enum values name a type. */
  function ParseType(s: string): (r: Option<FavoriteType>)
    ensures r.Some? <==> exists t :: TypeValue(t) == s
    ensures r.Some? ==> TypeValue(r.value) == s
  {
    if s == "character" then
      assert TypeValue(CharacterType) == s;
      Some(CharacterType)
    else if s == "planet" then
      assert TypeValue(PlanetType) == s;
      Some(PlanetType)
    else
      assert forall t :: TypeValue(t) != s;
      None
  }

  /** Parsing undoes `.value`: the enum and its strings are in bijection. */
  lemma ParseTypeValue(t: FavoriteType)
    ensures ParseType(TypeValue(t)) == Some(t)
  {
  }

  // ---------------------------------------------------------------------
  // Rows
  // ---------------------------------------------------------------------

  /** A row of `user`. The password is stored as given. */
  datatype User = User(id: int, email: string, password: string, isActive: bool)

  /** A row of `character`; only `name` is NOT NULL. */
  datatype Character = Character(
    id: int, name: string,
    gender: Option<string>, eyeColor: Option<string>, height: Option<string>)

  /** A row of `planet`; only `name` is NOT NULL. */
  datatype Planet = Planet(
    id: int, name: string,
    climate: Option<string>, terrain: Option<string>, population: Option<string>)

  /** A favourite header: its owner and the discriminant. */
  datatype Favorite = Favorite(id: int, userId: int, favoriteType: FavoriteType)

  /** Character detail of a favourite; `id` is the header's id (shared key). */
  datatype FavoriteCharacter = FavoriteCharacter(id: int, characterId: int)

  /** Planet detail of a favourite; `id` is the header's id (shared key). */
  datatype FavoritePlanet = FavoritePlanet(id: int, planetId: int)

  // ---------------------------------------------------------------------
  // Serializers
  // ---------------------------------------------------------------------

  /** `User.serialize`: exposes the id and the email and nothing else. */
  function SerializeUser(u: User): (j: Json)
    ensures j.Object? && j.fields.Keys == {"id", "email"}
  {
    Object(map["id" := Int(u.id), "email" := Str(u.email)])
  }

  /** Two users have the same view exactly when they agree on id and email:
      the password and the active flag never reach the output, and nothing
      else is lost. */
  lemma UserViewExactlyIdAndEmail(u: User, v: User)
    ensures SerializeUser(u) == SerializeUser(v) <==> u.id == v.id && u.email == v.email
  {
    if SerializeUser(u) == SerializeUser(v) {
      assert SerializeUser(u).fields["id"] == SerializeUser(v).fields["id"];
      assert SerializeUser(u).fields["email"] == SerializeUser(v).fields["email"];
    }
  }

  /** `Character.serialize`: every column, absent ones as `null`. */
  function SerializeCharacter(c: Character): (j: Json)
    ensures j.Object? && j.fields.Keys == {"id", "name", "gender", "eye_color", "height"}
    ensures c.gender.None? <==> j.fields["gender"] == Null
    ensures c.eyeColor.None? <==> j.fields["eye_color"] == Null
    ensures c.height.None? <==> j.fields["height"] == Null
  {
    Object(map[
      "id" := Int(c.id),
      "name" := Str(c.name),
      "gender" := Nullable(c.gender),
      "eye_color" := Nullable(c.eyeColor),
      "height" := Nullable(c.height)])
  }

  /** `Planet.serialize`: every column, absent ones as `null`. */
  function SerializePlanet(p: Planet): (j: Json)
    ensures j.Object? && j.fields.Keys == {"id", "name", "climate", "terrain", "population"}
    ensures p.climate.None? <==> j.fields["climate"] == Null
    ensures p.terrain.None? <==> j.fields["terrain"] == Null
    ensures p.population.None? <==> j.fields["population"] == Null
  {
    Object(map[
      "id" := Int(p.id),
      "name" := Str(p.name),
      "climate" := Nullable(p.climate),
      "terrain" := Nullable(p.terrain),
      "population" := Nullable(p.population)])
  }

  lemma NullableInjective(a: Option<string>, b: Option<string>)
    ensures Nullable(a) == Nullable(b) ==> a == b
  {
  }

  /** The character view loses nothing: distinct rows have distinct views. */
  lemma CharacterViewInjective(c: Character, d: Character)
    ensures SerializeCharacter(c) == SerializeCharacter(d) ==> c == d
  {
    if SerializeCharacter(c) == SerializeCharacter(d) {
      var f, g := SerializeCharacter(c).fields, SerializeCharacter(d).fields;
      assert f["id"] == g["id"] && f["name"] == g["name"];
      assert f["gender"] == g["gender"] && f["eye_color"] == g["eye_color"] && f["height"] == g["height"];
      NullableInjective(c.gender, d.gender);
      NullableInjective(c.eyeColor, d.eyeColor);
      NullableInjective(c.height, d.height);
    }
  }

  /** The planet view loses nothing: distinct rows have distinct views. */
  lemma PlanetViewInjective(p: Planet, q: Planet)
    ensures SerializePlanet(p) == SerializePlanet(q) ==> p == q
  {
    if SerializePlanet(p) == SerializePlanet(q) {
      var f, g := SerializePlanet(p).fields, SerializePlanet(q).fields;
      assert f["id"] == g["id"] && f["name"] == g["name"];
      assert f["climate"] == g["climate"] && f["terrain"] == g["terrain"] && f["population"] == g["population"];
      NullableInjective(p.climate, q.climate);
      NullableInjective(p.terrain, q.terrain);
      NullableInjective(p.population, q.population);
    }
  }

  /** The nested character is reached through the detail row's foreign key;
      when that key names no row, `.character` is None in the source and
      `.serialize()` on it raises. */
  predicate CharacterDangles(f: Favorite, characterDetail: Option<FavoriteCharacter>, characters: map<int, Character>)
  {
    f.favoriteType == CharacterType && characterDetail.Some? && characterDetail.value.characterId !in characters
  }

  predicate PlanetDangles(f: Favorite, planetDetail: Option<FavoritePlanet>, planets: map<int, Planet>)
  {
    f.favoriteType == PlanetType && planetDetail.Some? && planetDetail.value.planetId !in planets
  }

  /** `Favorite.serialize`, given the header's loaded detail rows and the
      tables their foreign keys point into. `None` stands for the exception
      raised when the selected detail points at a missing row. The nested
      object is chosen by the discriminant and is silently left out when
      the matching detail is missing. */
  function SerializeFavorite(
    f: Favorite,
    characterDetail: Option<FavoriteCharacter>,
    planetDetail: Option<FavoritePlanet>,
    characters: map<int, Character>,
    planets: map<int, Planet>): (r: Option<Json>)
    ensures r.None? <==> CharacterDangles(f, characterDetail, characters) || PlanetDangles(f, planetDetail, planets)
    ensures r.Some? ==>
      && r.value.Object?
      && {"id", "user_id", "type"} <= r.value.fields.Keys <= {"id", "user_id", "type", "character", "planet"}
      && r.value.fields["id"] == Int(f.id)
      && r.value.fields["user_id"] == Int(f.userId)
      && r.value.fields["type"] == Str(TypeValue(f.favoriteType))
    ensures r.Some? ==>
      ("character" in r.value.fields <==> f.favoriteType == CharacterType && characterDetail.Some?)
    ensures r.Some? ==>
      ("planet" in r.value.fields <==> f.favoriteType == PlanetType && planetDetail.Some?)
    ensures r.Some? && "character" in r.value.fields ==>
      r.value.fields["character"] == SerializeCharacter(characters[characterDetail.value.characterId])
    ensures r.Some? && "planet" in r.value.fields ==>
      r.value.fields["planet"] == SerializePlanet(planets[planetDetail.value.planetId])
  {
    var header := map["id" := Int(f.id), "user_id" := Int(f.userId), "type" := Str(TypeValue(f.favoriteType))];
    if f.favoriteType == CharacterType && characterDetail.Some? then
      var target := characterDetail.value.characterId;
      if target in characters then Some(Object(header["character" := SerializeCharacter(characters[target])])) else None
    else if f.favoriteType == PlanetType && planetDetail.Some? then
      var target := planetDetail.value.planetId;
      if target in planets then Some(Object(header["planet" := SerializePlanet(planets[target])])) else None
    else
      Some(Object(header))
  }

  // ---------------------------------------------------------------------
  // Shared keys and cascades
  // ---------------------------------------------------------------------

  /** The rule the write paths keep for the three favourite tables: every
      detail row shares its key with an existing header (the foreign key on
      the detail's primary key, and the delete-orphan cascade from the
      header), and a header of type character has a character detail and
      no planet detail, symmetrically for planets. */
  ghost predicate DetailsMatchHeaders(
    favorites: map<int, Favorite>,
    favoriteCharacters: map<int, FavoriteCharacter>,
    favoritePlanets: map<int, FavoritePlanet>)
  {
    && (forall k :: k in favoriteCharacters ==> k in favorites && favoriteCharacters[k].id == k)
    && (forall k :: k in favoritePlanets ==> k in favorites && favoritePlanets[k].id == k)
    && (forall k :: k in favorites ==>
          && favorites[k].id == k
          && (favorites[k].favoriteType == CharacterType ==> k in favoriteCharacters && k !in favoritePlanets)
          && (favorites[k].favoriteType == PlanetType ==> k in favoritePlanets && k !in favoriteCharacters))
  }

  /** Under the shared-key rule a header has exactly one detail, the one its
      discriminant names, and a detail row's key identifies its header. */
  lemma ExactlyOneDetail(
    favorites: map<int, Favorite>,
    favoriteCharacters: map<int, FavoriteCharacter>,
    favoritePlanets: map<int, FavoritePlanet>,
    k: int)
    requires DetailsMatchHeaders(favorites, favoriteCharacters, favoritePlanets)
    requires k in favorites
    ensures (k in favoriteCharacters) != (k in favoritePlanets)
    ensures k in favoriteCharacters <==> favorites[k].favoriteType == CharacterType
    ensures k in favoriteCharacters ==> favoriteCharacters[k].id == favorites[k].id
    ensures k in favoritePlanets ==> favoritePlanets[k].id == favorites[k].id
  {
  }

  /** Under the shared-key rule, and when the target row exists, a
      favourite's view carries exactly one nested object, the one its
      discriminant names, equal to the target's own view. */
  lemma ViewCarriesTarget(
    favorites: map<int, Favorite>,
    favoriteCharacters: map<int, FavoriteCharacter>,
    favoritePlanets: map<int, FavoritePlanet>,
    characters: map<int, Character>,
    planets: map<int, Planet>,
    k: int)
    requires DetailsMatchHeaders(favorites, favoriteCharacters, favoritePlanets)
    requires k in favorites
    requires k in favoriteCharacters ==> favoriteCharacters[k].characterId in characters
    requires k in favoritePlanets ==> favoritePlanets[k].planetId in planets
    ensures
      var v := SerializeFavorite(favorites[k],
        if k in favoriteCharacters then Some(favoriteCharacters[k]) else None,
        if k in favoritePlanets then Some(favoritePlanets[k]) else None,
        characters, planets);
      && v.Some?
      && (favorites[k].favoriteType == CharacterType ==>
            && "planet" !in v.value.fields
            && v.value.fields["character"] == SerializeCharacter(characters[favoriteCharacters[k].characterId]))
      && (favorites[k].favoriteType == PlanetType ==>
            && "character" !in v.value.fields
            && v.value.fields["planet"] == SerializePlanet(planets[favoritePlanets[k].planetId]))
  {
  }
}
