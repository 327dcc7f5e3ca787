/** `FavoritesService` (src/api/favorites/favorites.service.ts): per-user
    favourites of artists, albums and tracks. */
module Favorites {
  import opened Common
  import opened Artists
  import opened Albums
  import opened Tracks

  /** The favourite categories (`album`, `artist`, `track`). */
  datatype Category = AlbumItem | ArtistItem | TrackItem

  datatype Favorite = Favorite(itemId: Id, category: Category, userId: Id)

  /** The user already has a favourite with this item key, of any category. */
  predicate Favored(rows: map<Id, Favorite>, itemId: Id, userId: Id)
  {
    exists id :: id in rows && rows[id].itemId == itemId && rows[id].userId == userId
  }

  /** No user has two favourites with the same item key. */
  ghost predicate NoDuplicates(rows: map<Id, Favorite>)
  {
    forall a, b :: a in rows && b in rows && a != b ==>
      (rows[a].itemId, rows[a].userId) != (rows[b].itemId, rows[b].userId)
  }

  /** The insert guard keeps the rule, and so does any removal. */
  lemma NoDuplicatesPreserved(rows: map<Id, Favorite>, id: Id, f: Favorite, gone: Id)
    requires NoDuplicates(rows) && id !in rows
    ensures !Favored(rows, f.itemId, f.userId) ==> NoDuplicates(rows[id := f])
    ensures NoDuplicates(rows - {gone})
  {
  }

  /** The rows `getFavorite` returns: its where-clause is `{ category, user_id }`. */
  predicate Listed(f: Favorite, category: Category, userId: Id)
  {
    f.category == category && f.userId == userId
  }

  class FavoritesService {
    var favorites: map<Id, Favorite>
    const artistsService: ArtistsService
    const albumsService: AlbumsService
    const tracksService: TracksService

    ghost predicate Valid()
      reads this
    {
      NoDuplicates(favorites)
    }

    constructor (artistsService: ArtistsService, albumsService: AlbumsService, tracksService: TracksService)
      ensures Valid() && favorites == map[]
      ensures this.artistsService == artistsService && this.albumsService == albumsService
      ensures this.tracksService == tracksService
    {
      favorites := map[];
      this.artistsService := artistsService;
      this.albumsService := albumsService;
      this.tracksService := tracksService;
    }

    /** `repositoryMap[category].findOne({ where: { id } })`: the item exists
        in the table the category selects. */
    predicate ItemExists(category: Category, itemId: Id)
      reads artistsService, albumsService, tracksService
    {
      match category
      case AlbumItem => itemId in albumsService.albums
      case ArtistItem => itemId in artistsService.artists
      case TrackItem => itemId in tracksService.tracks
    }

    /** What globally unique UUID keys guarantee and per-table keys do not:
        no key belongs to two item tables, and a favourite's item key is a key
        of no table other than its own category's. */
    ghost predicate KeysDistinct()
      reads this, artistsService, albumsService, tracksService
    {
      (forall k :: k in artistsService.artists ==> k !in albumsService.albums && k !in tracksService.tracks) &&
      (forall k :: k in albumsService.albums ==> k !in tracksService.tracks) &&
      (forall id, c :: id in favorites && c != favorites[id].category ==> !ItemExists(c, favorites[id].itemId))
    }

    /** `addFavorite`: NOTFOUND when the item is not in its category's table,
        CONFLICT when the user already has that item key (whatever the
        category), otherwise one insert under the generated key `id`. */
    method AddFavorite(itemId: Id, category: Category, userId: Id, id: Id) returns (reply: Reply)
      requires Valid() && id !in favorites
      modifies this
      ensures Valid()
      ensures old(KeysDistinct()) ==> KeysDistinct()
      ensures old(KeysDistinct()) && reply.status == Conflict ==>
        exists k :: k in favorites && favorites[k] == Favorite(itemId, category, userId)
      ensures !ItemExists(category, itemId) ==>
        reply == Reply(true, NotFound, ResourceNotFound) && favorites == old(favorites)
      ensures ItemExists(category, itemId) && Favored(old(favorites), itemId, userId) ==>
        reply == Reply(true, Conflict, AlreadyExists) && favorites == old(favorites)
      ensures !reply.error <==> ItemExists(category, itemId) && !Favored(old(favorites), itemId, userId)
      ensures !reply.error ==>
        reply == Reply(false, Created, CreateSuccess) &&
        favorites == old(favorites)[id := Favorite(itemId, category, userId)]
    {
      if !ItemExists(category, itemId) {
        return Reply(true, NotFound, ResourceNotFound);
      }
      if Favored(favorites, itemId, userId) {
        if KeysDistinct() {
          var k :| k in favorites && favorites[k].itemId == itemId && favorites[k].userId == userId;
          assert favorites[k].category == category;
        }
        return Reply(true, Conflict, AlreadyExists);
      }
      NoDuplicatesPreserved(favorites, id, Favorite(itemId, category, userId), id);
      favorites := favorites[id := Favorite(itemId, category, userId)];
      reply := Reply(false, Created, CreateSuccess);
    }

    /** `getFavorite`: the keys of the user's favourites of that category
        (pagination and the item-name join aside). The service's NOTFOUND
        branch tests the result of a count query, which is never empty. */
    method GetFavorite(category: Category, userId: Id) returns (reply: Reply, found: set<Id>)
      ensures reply == Reply(false, Success, FetchSuccess)
      ensures forall id :: id in found <==>
        id in favorites && favorites[id].category == category && favorites[id].userId == userId
    {
      found := set id | id in favorites && Listed(favorites[id], category, userId);
      reply := Reply(false, Success, FetchSuccess);
    }

    /** `deleteFavorite`: NOTFOUND for an unknown key, otherwise that row goes,
        whoever owns it. */
    method DeleteFavorite(favoriteId: Id) returns (reply: Reply)
      requires Valid()
      modifies this
      ensures Valid()
      ensures old(KeysDistinct()) ==> KeysDistinct()
      ensures favoriteId !in old(favorites) ==>
        reply == Reply(true, NotFound, ResourceNotFound) && favorites == old(favorites)
      ensures favoriteId in old(favorites) ==>
        reply == Reply(false, Success, DeleteSuccess) && favorites == old(favorites) - {favoriteId}
    {
      if favoriteId !in favorites {
        return Reply(true, NotFound, ResourceNotFound);
      }
      favorites := favorites - {favoriteId};
      reply := Reply(false, Success, DeleteSuccess);
    }
  }
}
