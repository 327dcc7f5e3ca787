/** `ArtistsService` (src/api/artists/artists.service.ts): the artist table. */
module Artists {
  import opened Common

  datatype Artist = Artist(name: string, grammy: int, hidden: bool)

  /** An update body: each field is present or absent (`@IsOptional`). */
  datatype ArtistPatch = ArtistPatch(name: Option<string>, grammy: Option<int>, hidden: Option<bool>)
  {
    /** The body `{}`: no column to set, so `update` reports no affected row. */
    predicate Empty()
    {
      name.None? && grammy.None? && hidden.None?
    }
  }

  /** `update({ ...data })`: the present fields overwrite, the rest stay. */
  function ApplyArtist(a: Artist, p: ArtistPatch): Artist
  {
    Artist(if p.name.Some? then p.name.value else a.name,
           if p.grammy.Some? then p.grammy.value else a.grammy,
           if p.hidden.Some? then p.hidden.value else a.hidden)
  }

  /** Applying the same update twice is applying it once; an empty update
      changes nothing; a full one replaces the row. */
  lemma ApplyArtistLaws(a: Artist, p: ArtistPatch)
    ensures ApplyArtist(ApplyArtist(a, p), p) == ApplyArtist(a, p)
    ensures ApplyArtist(a, ArtistPatch(None, None, None)) == a
    ensures p.name.Some? && p.grammy.Some? && p.hidden.Some? ==>
      ApplyArtist(a, p) == Artist(p.name.value, p.grammy.value, p.hidden.value)
  {
  }

  /** The where-clause `getAllArtists` builds: a field is present only when
      the corresponding query value is truthy. */
  datatype ArtistWhere = ArtistWhere(grammy: Option<int>, hidden: Option<bool>)

  /** Whether a row satisfies a where-clause: every present field is equal. */
  predicate ArtistMatches(w: ArtistWhere, a: Artist)
  {
    (w.grammy.Some? ==> a.grammy == w.grammy.value) && (w.hidden.Some? ==> a.hidden == w.hidden.value)
  }

  /** `if (!!grammy) where.grammy = +grammy; if (!!hidden) where.hidden = hidden`,
      with `None` for an absent (or non-numeric) query value. Only a non-zero
      grammy count and `hidden=true` filter. */
  function ArtistFilter(grammy: Option<int>, hidden: Option<bool>): (w: ArtistWhere)
    ensures forall a :: ArtistMatches(w, a) <==>
      (grammy.Some? && grammy.value != 0 ==> a.grammy == grammy.value) &&
      (hidden == Some(true) ==> a.hidden)
  {
    ArtistWhere(if grammy.Some? && grammy.value != 0 then grammy else None,
                if hidden == Some(true) then hidden else None)
  }

  /** `grammy=0` and `hidden=false` are the same query as leaving them out. */
  lemma FalsyArtistFiltersIgnored(grammy: Option<int>, hidden: Option<bool>)
    ensures ArtistFilter(Some(0), hidden) == ArtistFilter(None, hidden)
    ensures ArtistFilter(grammy, Some(false)) == ArtistFilter(grammy, None)
  {
  }

  class ArtistsService {
    var artists: map<Id, Artist>

    constructor ()
      ensures artists == map[]
    {
      artists := map[];
    }

    /** `addArtist`: always inserts the row under the generated key `id`;
        there is no duplicate check. */
    method AddArtist(data: Artist, id: Id) returns (reply: Reply)
      requires id !in artists
      modifies this
      ensures reply == Reply(false, Created, CreateSuccess)
      ensures artists == old(artists)[id := data]
      ensures |artists| == |old(artists)| + 1
    {
      artists := artists[id := data];
      reply := Reply(false, Created, CreateSuccess);
    }

    /** `getAllArtists`: the keys of the selected rows (pagination aside). */
    method GetAllArtists(grammy: Option<int>, hidden: Option<bool>) returns (reply: Reply, found: set<Id>)
      ensures reply == Reply(false, Success, FetchSuccess)
      ensures forall id :: id in found <==>
        id in artists &&
        (grammy.Some? && grammy.value != 0 ==> artists[id].grammy == grammy.value) &&
        (hidden == Some(true) ==> artists[id].hidden)
    {
      var w := ArtistFilter(grammy, hidden);
      found := set id | id in artists && ArtistMatches(w, artists[id]);
      reply := Reply(false, Success, FetchSuccess);
    }

    /** `getArtist`. */
    method GetArtist(id: Id) returns (reply: Reply, artist: Option<Artist>)
      ensures id !in artists <==> reply == Reply(true, NotFound, ArtistNotFound)
      ensures id in artists <==> reply == Reply(false, Success, RetrieveSuccess)
      ensures artist == if id in artists then Some(artists[id]) else None
    {
      if id !in artists {
        return Reply(true, NotFound, ArtistNotFound), None;
      }
      reply, artist := Reply(false, Success, RetrieveSuccess), Some(artists[id]);
    }

    /** `updateArtist`: NOTFOUND for an unknown key; an empty body affects no
        row, which the service throws on; otherwise the present fields of the
        body overwrite that row alone. */
    method UpdateArtist(data: ArtistPatch, id: Id) returns (reply: Reply)
      modifies this
      ensures id !in old(artists) ==>
        reply == Reply(true, NotFound, ArtistNotFound) && artists == old(artists)
      ensures id in old(artists) && data.Empty() ==> reply == Thrown && artists == old(artists)
      ensures id in old(artists) && !data.Empty() ==>
        reply == Reply(false, NoContent, UpdateSuccess) &&
        artists == old(artists)[id := ApplyArtist(old(artists)[id], data)]
    {
      if id !in artists {
        return Reply(true, NotFound, ArtistNotFound);
      }
      if data.Empty() {
        return Thrown;
      }
      artists := artists[id := ApplyArtist(artists[id], data)];
      reply := Reply(false, NoContent, UpdateSuccess);
    }

    /** `deleteArtist`: NOTFOUND for an unknown key; otherwise that row goes
        and its key is handed back. */
    method DeleteArtist(id: Id) returns (reply: Reply, deleted: Option<Id>)
      modifies this
      ensures id !in old(artists) ==>
        reply == Reply(true, NotFound, ArtistNotFound) && deleted.None? && artists == old(artists)
      ensures id in old(artists) ==>
        reply == Reply(false, Success, DeleteSuccess) && deleted == Some(id) &&
        artists == old(artists) - {id}
    {
      if id !in artists {
        return Reply(true, NotFound, ArtistNotFound), None;
      }
      artists := artists - {id};
      reply, deleted := Reply(false, Success, DeleteSuccess), Some(id);
    }
  }
}
