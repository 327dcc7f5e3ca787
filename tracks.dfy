/** `TracksService` (src/api/tracks/tracks.service.ts): the track table,
    whose rows name an album and that album's artist. */
module Tracks {
  import opened Common
  import opened Albums

  datatype Track = Track(name: string, duration: int, hidden: bool, artistId: Id, albumId: Id)

  datatype TrackPatch = TrackPatch(name: Option<string>, duration: Option<int>, hidden: Option<bool>,
                                   artistId: Option<Id>, albumId: Option<Id>)
  {
    /** The body `{}`: no column to set, so `update` reports no affected row. */
    predicate Empty()
    {
      name.None? && duration.None? && hidden.None? && artistId.None? && albumId.None?
    }
  }

  /** `update({ ...data })`: the present fields overwrite, the rest stay. */
  function ApplyTrack(t: Track, p: TrackPatch): Track
  {
    Track(if p.name.Some? then p.name.value else t.name,
          if p.duration.Some? then p.duration.value else t.duration,
          if p.hidden.Some? then p.hidden.value else t.hidden,
          if p.artistId.Some? then p.artistId.value else t.artistId,
          if p.albumId.Some? then p.albumId.value else t.albumId)
  }

  lemma ApplyTrackLaws(t: Track, p: TrackPatch)
    ensures ApplyTrack(ApplyTrack(t, p), p) == ApplyTrack(t, p)
    ensures ApplyTrack(t, TrackPatch(None, None, None, None, None)) == t
  {
  }

  /** The album `albumId` exists and belongs to the artist `artistId`. */
  predicate Associated(albums: map<Id, Album>, artistId: Id, albumId: Id)
  {
    albumId in albums && albums[albumId].artistId == artistId
  }

  /** A track with this name is already on this album. */
  predicate TrackExists(rows: map<Id, Track>, albumId: Id, name: string)
  {
    exists id :: id in rows && rows[id].albumId == albumId && rows[id].name == name
  }

  /** Every track's album exists and belongs to the track's artist. */
  ghost predicate Consistent(tracks: map<Id, Track>, albums: map<Id, Album>)
  {
    forall id :: id in tracks ==> Associated(albums, tracks[id].artistId, tracks[id].albumId)
  }

  /** The association check of `updateTrack` runs only when both ids are
      supplied: moving a track to another artist's album by its `album_id`
      alone passes it and leaves the track inconsistent. */
  lemma UpdateCanBreakAssociation()
    ensures var albums := map[1 := Album("a", 2000, false, 7), 2 := Album("b", 2000, false, 8)];
            var tracks := map[5 := Track("t", 180, false, 7, 1)];
            var p := TrackPatch(None, None, None, None, Some(2));
            Consistent(tracks, albums) &&
            !(p.artistId.Some? && p.albumId.Some?) &&
            !Consistent(tracks[5 := ApplyTrack(tracks[5], p)], albums)
  {
    var albums := map[1 := Album("a", 2000, false, 7), 2 := Album("b", 2000, false, 8)];
    var tracks := map[5 := Track("t", 180, false, 7, 1)];
    var after := tracks[5 := ApplyTrack(tracks[5], TrackPatch(None, None, None, None, Some(2)))];
    assert !Associated(albums, after[5].artistId, after[5].albumId);
  }

  datatype TrackWhere = TrackWhere(artistId: Option<Id>, albumId: Option<Id>, hidden: Option<bool>)

  predicate TrackMatches(w: TrackWhere, t: Track)
  {
    (w.artistId.Some? ==> t.artistId == w.artistId.value) &&
    (w.albumId.Some? ==> t.albumId == w.albumId.value) &&
    (w.hidden.Some? ==> t.hidden == w.hidden.value)
  }

  /** The filters of `getAllTracks`, each added only for a truthy value. */
  function TrackFilter(artistId: Option<Id>, albumId: Option<Id>, hidden: Option<bool>): (w: TrackWhere)
    ensures forall t :: TrackMatches(w, t) <==>
      (artistId.Some? ==> t.artistId == artistId.value) &&
      (albumId.Some? ==> t.albumId == albumId.value) &&
      (hidden == Some(true) ==> t.hidden)
  {
    TrackWhere(artistId, albumId, if hidden == Some(true) then hidden else None)
  }

  class TracksService {
    var tracks: map<Id, Track>
    const albumsService: AlbumsService

    constructor (albumsService: AlbumsService)
      ensures tracks == map[] && this.albumsService == albumsService
    {
      tracks := map[];
      this.albumsService := albumsService;
    }

    /** `addTrack`: NOTFOUND unless the album exists AND belongs to the named
        artist, CONFLICT when the album already has a track of that name,
        otherwise one insert under the generated key `id`. */
    method AddTrack(data: Track, id: Id) returns (reply: Reply)
      requires id !in tracks
      modifies this
      ensures Consistent(old(tracks), albumsService.albums) ==> Consistent(tracks, albumsService.albums)
      ensures !Associated(albumsService.albums, data.artistId, data.albumId) ==>
        reply == Reply(true, NotFound, ResourceNotFound) && tracks == old(tracks)
      ensures Associated(albumsService.albums, data.artistId, data.albumId) &&
              TrackExists(old(tracks), data.albumId, data.name) ==>
        reply == Reply(true, Conflict, AlreadyExists) && tracks == old(tracks)
      ensures !reply.error <==>
        Associated(albumsService.albums, data.artistId, data.albumId) && !TrackExists(old(tracks), data.albumId, data.name)
      ensures !reply.error ==> reply == Reply(false, Created, CreateSuccess) && tracks == old(tracks)[id := data]
    {
      if !Associated(albumsService.albums, data.artistId, data.albumId) {
        return Reply(true, NotFound, ResourceNotFound);
      }
      if TrackExists(tracks, data.albumId, data.name) {
        return Reply(true, Conflict, AlreadyExists);
      }
      tracks := tracks[id := data];
      reply := Reply(false, Created, CreateSuccess);
    }

    /** `getAllTracks`: the keys of the selected rows (pagination and the
        name joins aside). */
    method GetAllTracks(artistId: Option<Id>, albumId: Option<Id>, hidden: Option<bool>)
      returns (reply: Reply, found: set<Id>)
      ensures reply == Reply(false, Success, FetchSuccess)
      ensures forall id :: id in found <==>
        id in tracks &&
        (artistId.Some? ==> tracks[id].artistId == artistId.value) &&
        (albumId.Some? ==> tracks[id].albumId == albumId.value) &&
        (hidden == Some(true) ==> tracks[id].hidden)
    {
      var w := TrackFilter(artistId, albumId, hidden);
      found := set id | id in tracks && TrackMatches(w, tracks[id]);
      reply := Reply(false, Success, FetchSuccess);
    }

    /** `getTrack`. */
    method GetTrack(id: Id) returns (reply: Reply, track: Option<Track>)
      ensures id !in tracks <==> reply == Reply(true, NotFound, ResourceNotFound)
      ensures id in tracks <==> reply == Reply(false, Success, RetrieveSuccess)
      ensures track == if id in tracks then Some(tracks[id]) else None
    {
      if id !in tracks {
        return Reply(true, NotFound, ResourceNotFound), None;
      }
      reply, track := Reply(false, Success, RetrieveSuccess), Some(tracks[id]);
    }

    /** `updateTrack`: NOTFOUND for an unknown key; BADREQUEST when BOTH ids
        are supplied and not associated; a throw for an empty body (no
        affected row); otherwise the present fields overwrite that row alone. */
    method UpdateTrack(data: TrackPatch, id: Id) returns (reply: Reply)
      modifies this
      ensures id !in old(tracks) ==>
        reply == Reply(true, NotFound, ResourceNotFound) && tracks == old(tracks)
      ensures id in old(tracks) && data.artistId.Some? && data.albumId.Some? &&
              !Associated(albumsService.albums, data.artistId.value, data.albumId.value) ==>
        reply == Reply(true, BadRequest, NotAssociated) && tracks == old(tracks)
      ensures id in old(tracks) && data.Empty() ==> reply == Thrown && tracks == old(tracks)
      ensures !reply.error <==>
        id in old(tracks) &&
        (data.artistId.Some? && data.albumId.Some? ==>
           Associated(albumsService.albums, data.artistId.value, data.albumId.value)) &&
        !data.Empty()
      ensures !reply.error ==>
        reply == Reply(false, Success, UpdateSuccess) &&
        tracks == old(tracks)[id := ApplyTrack(old(tracks)[id], data)]
    {
      if id !in tracks {
        return Reply(true, NotFound, ResourceNotFound);
      }
      if data.artistId.Some? && data.albumId.Some? &&
         !Associated(albumsService.albums, data.artistId.value, data.albumId.value) {
        return Reply(true, BadRequest, NotAssociated);
      }
      if data.Empty() {
        return Thrown;
      }
      tracks := tracks[id := ApplyTrack(tracks[id], data)];
      reply := Reply(false, Success, UpdateSuccess);
    }

    /** `deleteTrack`: NOTFOUND for an unknown key, otherwise that row goes. */
    method DeleteTrack(id: Id) returns (reply: Reply)
      modifies this
      ensures Consistent(old(tracks), albumsService.albums) ==> Consistent(tracks, albumsService.albums)
      ensures id !in old(tracks) ==> reply == Reply(true, NotFound, ResourceNotFound) && tracks == old(tracks)
      ensures id in old(tracks) ==> reply == Reply(false, Success, DeleteSuccess) && tracks == old(tracks) - {id}
    {
      if id !in tracks {
        return Reply(true, NotFound, ResourceNotFound);
      }
      tracks := tracks - {id};
      reply := Reply(false, Success, DeleteSuccess);
    }
  }
}
