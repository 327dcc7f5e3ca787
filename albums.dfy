/** `AlbumsService` (src/api/albums/albums.service.ts): the album table,
    whose rows name an artist of the artist table. */
module Albums {
  import opened Common
  import opened Artists

  datatype Album = Album(name: string, year: int, hidden: bool, artistId: Id)

  datatype AlbumPatch = AlbumPatch(name: Option<string>, year: Option<int>, hidden: Option<bool>, artistId: Option<Id>)
  {
    /** The body `{}`: no column to set, so `update` reports no affected row. */
    predicate Empty()
    {
      name.None? && year.None? && hidden.None? && artistId.None?
    }
  }

  /** `update({ ...data })`: the present fields overwrite, the rest stay. */
  function ApplyAlbum(a: Album, p: AlbumPatch): Album
  {
    Album(if p.name.Some? then p.name.value else a.name,
          if p.year.Some? then p.year.value else a.year,
          if p.hidden.Some? then p.hidden.value else a.hidden,
          if p.artistId.Some? then p.artistId.value else a.artistId)
  }

  lemma ApplyAlbumLaws(a: Album, p: AlbumPatch)
    ensures ApplyAlbum(ApplyAlbum(a, p), p) == ApplyAlbum(a, p)
    ensures ApplyAlbum(a, AlbumPatch(None, None, None, None)) == a
    ensures p.artistId.None? ==> ApplyAlbum(a, p).artistId == a.artistId
  {
  }

  /** Another row already has this `(artist_id, name, year)`. */
  predicate AlbumExists(rows: map<Id, Album>, artistId: Id, name: string, year: int)
  {
    exists id :: id in rows && rows[id].artistId == artistId && rows[id].name == name && rows[id].year == year
  }

  /** No two rows share `(artist_id, name, year)`. */
  ghost predicate UniqueAlbums(rows: map<Id, Album>)
  {
    forall a, b :: a in rows && b in rows && a != b ==>
      (rows[a].artistId, rows[a].name, rows[a].year) != (rows[b].artistId, rows[b].name, rows[b].year)
  }

  /** The insert guard keeps the rule: a row whose triple is new may join. */
  lemma InsertKeepsUnique(rows: map<Id, Album>, id: Id, a: Album)
    requires UniqueAlbums(rows) && id !in rows
    requires !AlbumExists(rows, a.artistId, a.name, a.year)
    ensures UniqueAlbums(rows[id := a])
  {
  }

  /** `updateAlbum` re-checks nothing, so the rule holds only at insert: two
      distinct albums, and an update of the second that gives it the first
      one's triple. */
  lemma UpdateCanBreakUnique()
    ensures var rows := map[1 := Album("a", 2000, false, 7), 2 := Album("b", 2001, false, 7)];
            UniqueAlbums(rows) &&
            !UniqueAlbums(rows[2 := ApplyAlbum(rows[2], AlbumPatch(Some("a"), Some(2000), None, None))])
  {
    var rows := map[1 := Album("a", 2000, false, 7), 2 := Album("b", 2001, false, 7)];
    var after := rows[2 := ApplyAlbum(rows[2], AlbumPatch(Some("a"), Some(2000), None, None))];
    assert after[1] == after[2];
  }

  datatype AlbumWhere = AlbumWhere(artistId: Option<Id>, hidden: Option<bool>)

  predicate AlbumMatches(w: AlbumWhere, a: Album)
  {
    (w.artistId.Some? ==> a.artistId == w.artistId.value) && (w.hidden.Some? ==> a.hidden == w.hidden.value)
  }

  /** `if (!!artist_id) …; if (!!hidden) …`, with `None` for an absent or
      empty `artist_id`: only `hidden=true` filters on visibility. */
  function AlbumFilter(artistId: Option<Id>, hidden: Option<bool>): (w: AlbumWhere)
    ensures forall a :: AlbumMatches(w, a) <==>
      (artistId.Some? ==> a.artistId == artistId.value) && (hidden == Some(true) ==> a.hidden)
  {
    AlbumWhere(artistId, if hidden == Some(true) then hidden else None)
  }

  lemma HiddenFalseIgnored(artistId: Option<Id>)
    ensures AlbumFilter(artistId, Some(false)) == AlbumFilter(artistId, None)
  {
  }

  class AlbumsService {
    var albums: map<Id, Album>
    const artistsService: ArtistsService

    constructor (artistsService: ArtistsService)
      ensures albums == map[] && this.artistsService == artistsService
    {
      albums := map[];
      this.artistsService := artistsService;
    }

    /** `addAlbum`: NOTFOUND when the artist is unknown, CONFLICT when the
        triple `(artist_id, name, year)` is taken, otherwise one insert
        under the generated key `id`. */
    method AddAlbum(data: Album, id: Id) returns (reply: Reply)
      requires id !in albums
      modifies this
      ensures UniqueAlbums(old(albums)) ==> UniqueAlbums(albums)
      ensures data.artistId !in artistsService.artists ==>
        reply == Reply(true, NotFound, ResourceNotFound) && albums == old(albums)
      ensures data.artistId in artistsService.artists && AlbumExists(old(albums), data.artistId, data.name, data.year) ==>
        reply == Reply(true, Conflict, AlreadyExists) && albums == old(albums)
      ensures !reply.error <==>
        data.artistId in artistsService.artists && !AlbumExists(old(albums), data.artistId, data.name, data.year)
      ensures !reply.error ==> reply == Reply(false, Created, CreateSuccess) && albums == old(albums)[id := data]
    {
      if data.artistId !in artistsService.artists {
        return Reply(true, NotFound, ResourceNotFound);
      }
      if AlbumExists(albums, data.artistId, data.name, data.year) {
        return Reply(true, Conflict, AlreadyExists);
      }
      if UniqueAlbums(albums) {
        InsertKeepsUnique(albums, id, data);
      }
      albums := albums[id := data];
      reply := Reply(false, Created, CreateSuccess);
    }

    /** `getAllAlbums`: the keys of the selected rows (pagination and the
        artist-name join aside). */
    method GetAllAlbums(artistId: Option<Id>, hidden: Option<bool>) returns (reply: Reply, found: set<Id>)
      ensures reply == Reply(false, Success, FetchSuccess)
      ensures forall id :: id in found <==>
        id in albums &&
        (artistId.Some? ==> albums[id].artistId == artistId.value) &&
        (hidden == Some(true) ==> albums[id].hidden)
    {
      var w := AlbumFilter(artistId, hidden);
      found := set id | id in albums && AlbumMatches(w, albums[id]);
      reply := Reply(false, Success, FetchSuccess);
    }

    /** `getAlbum`. */
    method GetAlbum(id: Id) returns (reply: Reply, album: Option<Album>)
      ensures id !in albums <==> reply == Reply(true, NotFound, ResourceNotFound)
      ensures id in albums <==> reply == Reply(false, Success, RetrieveSuccess)
      ensures album == if id in albums then Some(albums[id]) else None
    {
      if id !in albums {
        return Reply(true, NotFound, ResourceNotFound), None;
      }
      reply, album := Reply(false, Success, RetrieveSuccess), Some(albums[id]);
    }

    /** `updateAlbum`: NOTFOUND for an unknown album, NOTFOUND (artist
        message) for a supplied but unknown artist, a throw for an empty body
        (no affected row), otherwise the present fields overwrite that row
        alone. Uniqueness is not re-checked. */
    method UpdateAlbum(data: AlbumPatch, id: Id) returns (reply: Reply)
      modifies this
      ensures id !in old(albums) ==>
        reply == Reply(true, NotFound, ResourceNotFound) && albums == old(albums)
      ensures id in old(albums) && data.artistId.Some? && data.artistId.value !in artistsService.artists ==>
        reply == Reply(true, NotFound, ArtistNotFound) && albums == old(albums)
      ensures id in old(albums) && data.Empty() ==> reply == Thrown && albums == old(albums)
      ensures !reply.error <==>
        id in old(albums) && (data.artistId.Some? ==> data.artistId.value in artistsService.artists) &&
        !data.Empty()
      ensures !reply.error ==>
        reply == Reply(false, Success, UpdateSuccess) &&
        albums == old(albums)[id := ApplyAlbum(old(albums)[id], data)]
    {
      if id !in albums {
        return Reply(true, NotFound, ResourceNotFound);
      }
      if data.artistId.Some? && data.artistId.value !in artistsService.artists {
        return Reply(true, NotFound, ArtistNotFound);
      }
      if data.Empty() {
        return Thrown;
      }
      albums := albums[id := ApplyAlbum(albums[id], data)];
      reply := Reply(false, Success, UpdateSuccess);
    }

    /** `deleteAlbum`: NOTFOUND for an unknown key, otherwise that row goes. */
    method DeleteAlbum(id: Id) returns (reply: Reply)
      modifies this
      ensures UniqueAlbums(old(albums)) ==> UniqueAlbums(albums)
      ensures id !in old(albums) ==> reply == Reply(true, NotFound, ResourceNotFound) && albums == old(albums)
      ensures id in old(albums) ==> reply == Reply(false, Success, DeleteSuccess) && albums == old(albums) - {id}
    {
      if id !in albums {
        return Reply(true, NotFound, ResourceNotFound);
      }
      albums := albums - {id};
      reply := Reply(false, Success, DeleteSuccess);
    }
  }
}
