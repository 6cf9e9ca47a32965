/** Example request sequences whose replies follow from the handlers'
    contracts alone. */
module Scenarios {
  import opened Models
  import opened App

  /** POST /users with a new email, then the same email again. */
  method DuplicateEmailScenario()
  {
    var db := new Store();
    var r := db.CreateUser(Some("a@b.com"), Some("x"));
    assert r == Reply(201, Object(map["id" := Int(1), "email" := Str("a@b.com")]));
    assert db.users[1].email == "a@b.com";
    r := db.CreateUser(Some("a@b.com"), Some("y"));
    assert r == ErrorReply(400, "Email already exists");
    r := db.CreateUser(Some(""), Some("x"));
    assert r == ErrorReply(400, "Email and password are required");
    assert db.users.Keys == {1};
  }

  function Luke(): Character
  {
    Character(1, "Luke", None, None, None)
  }

  /** POST /users {email: "a@b.com", password: "x"} and POST /characters
      {name: "Luke"} on an empty database. */
  method UserAndLuke() returns (db: Store)
    ensures fresh(db) && db.Valid()
    ensures db.users.Keys == {1} && db.characters == map[1 := Luke()]
    ensures db.favorites == map[] && db.favoriteCharacters == map[] && db.favoritePlanets == map[]
    ensures db.nextFavoriteId == 1
  {
    db := new Store();
    var r := db.CreateUser(Some("a@b.com"), Some("x"));
    r := db.CreateCharacter(Some("Luke"), None, None, None);
    assert r == Reply(201, SerializeCharacter(Luke()));
  }

  /** POST /favorites with an id of 0, which counts as missing, and with a
      type that is not one of the two. */
  method RejectedFavoriteScenario()
  {
    var db := UserAndLuke();
    var r := db.AddFavorite(Some(1), Some("character"), Some(0));
    assert r == ErrorReply(400, "Missing user_id, type, or entity_id");
    r := db.AddFavorite(Some(1), Some("starship"), Some(1));
    assert r == ErrorReply(400, "Invalid favorite type");
    assert db.favorites == map[];
  }

  /** POST /favorites {user_id: 1, type: "character", entity_id: 1}. */
  method CharacterFavoriteScenario()
  {
    var db := UserAndLuke();
    var r := db.AddFavorite(Some(1), Some("character"), Some(1));
    assert db.favorites[1] == Favorite(1, 1, CharacterType);
    assert db.favoriteCharacters[1] == FavoriteCharacter(1, 1) && 1 !in db.favoritePlanets;
    assert db.FavoriteView(1).Some?;
    assert r.Reply? && r.status == 201;
    assert r.body.fields["id"] == Int(1) && r.body.fields["type"] == Str("character");
    assert r.body.fields["character"] == SerializeCharacter(Luke());
    assert "planet" !in r.body.fields;
  }

  /** A favourite of the current user, deleted through its character. */
  method DeleteScenario()
  {
    var db := UserAndLuke();
    var r := db.AddFavoriteCharacter(1);
    assert r.Reply? && r.status == 201;
    assert db.favorites == map[1 := Favorite(1, 1, CharacterType)];
    assert db.favoriteCharacters == map[1 := FavoriteCharacter(1, 1)];

    ghost var gone;
    assert CharacterFavoriteOf(db.favorites, db.favoriteCharacters, 1, CurrentUserId, 1);
    r, gone := db.DeleteFavoriteCharacter(1);
    assert r == MsgReply(200, "Favorito eliminado");
    assert db.favorites == map[] && db.favoriteCharacters == map[];
    r, gone := db.DeleteFavoriteCharacter(1);
    assert r == MsgReply(404, "Favorito no encontrado");

    // GET /users/favorites is now empty
    ghost var ids;
    r, ids := db.GetCurrentUserFavorites();
    assert ids == [];
    assert r == Reply(200, Array([]));
  }
}
