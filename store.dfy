/**
 * The relational store as three in-memory tables, each a sequence of rows in
 * the order queries return them. Keys come from per-table serial counters.
 * `Venue.shows` and `Artist.shows` are the shows whose foreign key names the
 * record, and deleting a venue or an artist deletes those shows with it
 * (the relationship's "delete" cascade).
 */
module Store {
  import opened Wrappers
  import opened Models

  /** Some row of `venues` has the key `id`. */
  predicate HasVenue(venues: seq<Venue>, id: int) {
    exists i :: 0 <= i < |venues| && venues[i].id == id
  }

  /** Some row of `artists` has the key `id`. */
  predicate HasArtist(artists: seq<Artist>, id: int) {
    exists i :: 0 <= i < |artists| && artists[i].id == id
  }

  /** No two venue rows share a key. */
  predicate UniqueVenueIds(venues: seq<Venue>) {
    forall i, j :: 0 <= i < |venues| && 0 <= j < |venues| && venues[i].id == venues[j].id ==> i == j
  }

  /** No two artist rows share a key. */
  predicate UniqueArtistIds(artists: seq<Artist>) {
    forall i, j :: 0 <= i < |artists| && 0 <= j < |artists| && artists[i].id == artists[j].id ==> i == j
  }

  /** No two show rows share a key. */
  predicate UniqueShowIds(shows: seq<Show>) {
    forall i, j :: 0 <= i < |shows| && 0 <= j < |shows| && shows[i].id == shows[j].id ==> i == j
  }

  /** The position of the venue keyed `id`, or `None` when there is none
      (`Venue.query.get`). */
  function VenueIndex(venues: seq<Venue>, id: int): (r: Option<nat>)
    ensures r.Some? ==> r.value < |venues| && venues[r.value].id == id
    ensures r.None? <==> !HasVenue(venues, id)
  {
    if venues == [] then None
    else if venues[0].id == id then Some(0)
    else
      match VenueIndex(venues[1..], id)
      case None =>
        assert forall i :: 1 <= i < |venues| ==> venues[i] == venues[1..][i - 1];
        None
      case Some(k) => Some(k + 1)
  }

  /** The position of the artist keyed `id`, or `None` when there is none
      (`Artist.query.get`). */
  function ArtistIndex(artists: seq<Artist>, id: int): (r: Option<nat>)
    ensures r.Some? ==> r.value < |artists| && artists[r.value].id == id
    ensures r.None? <==> !HasArtist(artists, id)
  {
    if artists == [] then None
    else if artists[0].id == id then Some(0)
    else
      match ArtistIndex(artists[1..], id)
      case None =>
        assert forall i :: 1 <= i < |artists| ==> artists[i] == artists[1..][i - 1];
        None
      case Some(k) => Some(k + 1)
  }

  /** Removing the venue at position `k` removes exactly the rows with its
      key and keeps the other keys distinct. */
  lemma RemoveVenueAt(venues: seq<Venue>, k: nat)
    requires UniqueVenueIds(venues) && k < |venues|
    ensures var rest := venues[..k] + venues[k + 1..];
      && UniqueVenueIds(rest)
      && (forall v :: v in rest <==> v in venues && v.id != venues[k].id)
      && (forall x :: HasVenue(rest, x) <==> HasVenue(venues, x) && x != venues[k].id)
  {
    var rest := venues[..k] + venues[k + 1..];
    assert forall i :: 0 <= i < k ==> rest[i] == venues[i];
    assert forall i :: k <= i < |rest| ==> rest[i] == venues[i + 1];
    forall v | v in venues && v.id != venues[k].id ensures v in rest {
      var i :| 0 <= i < |venues| && venues[i] == v;
      if i < k { assert rest[i] == v; } else { assert rest[i - 1] == v; }
    }
    forall x | HasVenue(venues, x) && x != venues[k].id ensures HasVenue(rest, x) {
      var i :| 0 <= i < |venues| && venues[i].id == x;
      if i < k { assert rest[i].id == x; } else { assert rest[i - 1].id == x; }
    }
  }

  /** Removing the artist at position `k` removes exactly the rows with its
      key and keeps the other keys distinct. */
  lemma RemoveArtistAt(artists: seq<Artist>, k: nat)
    requires UniqueArtistIds(artists) && k < |artists|
    ensures var rest := artists[..k] + artists[k + 1..];
      && UniqueArtistIds(rest)
      && (forall a :: a in rest <==> a in artists && a.id != artists[k].id)
      && (forall x :: HasArtist(rest, x) <==> HasArtist(artists, x) && x != artists[k].id)
  {
    var rest := artists[..k] + artists[k + 1..];
    assert forall i :: 0 <= i < k ==> rest[i] == artists[i];
    assert forall i :: k <= i < |rest| ==> rest[i] == artists[i + 1];
    forall a | a in artists && a.id != artists[k].id ensures a in rest {
      var i :| 0 <= i < |artists| && artists[i] == a;
      if i < k { assert rest[i] == a; } else { assert rest[i - 1] == a; }
    }
    forall x | HasArtist(artists, x) && x != artists[k].id ensures HasArtist(rest, x) {
      var i :| 0 <= i < |artists| && artists[i].id == x;
      if i < k { assert rest[i].id == x; } else { assert rest[i - 1].id == x; }
    }
  }

  /** Dropping rows by a filter keeps the show keys distinct. */
  lemma {:induction false} SelectKeepsUniqueIds(shows: seq<Show>, f: ShowFilter)
    requires UniqueShowIds(shows)
    ensures UniqueShowIds(Select(shows, f))
  {
    if shows != [] {
      var head, tail := shows[0], shows[1..];
      forall i, j | 0 <= i < |tail| && 0 <= j < |tail| && tail[i].id == tail[j].id ensures i == j {
        assert tail[i] == shows[i + 1] && tail[j] == shows[j + 1];
      }
      SelectKeepsUniqueIds(tail, f);
      var rest := Select(tail, f);
      if Holds(f, head) {
        var r := Select(shows, f);
        assert r == [head] + rest;
        forall t | t in rest ensures t.id != head.id {
          var k :| 0 <= k < |tail| && tail[k] == t;
          assert shows[k + 1] == t;
        }
        forall i, j | 0 <= i < |r| && 0 <= j < |r| && r[i].id == r[j].id ensures i == j {
          if i > 0 { assert r[i] == rest[i - 1] && rest[i - 1] in rest; }
          if j > 0 { assert r[j] == rest[j - 1] && rest[j - 1] in rest; }
        }
      } else {
        assert Select(shows, f) == rest;
      }
    }
  }

  /** Appending a show with a new key keeps the show keys distinct. */
  lemma AppendKeepsUniqueIds(shows: seq<Show>, s: Show)
    requires UniqueShowIds(shows)
    requires forall t :: t in shows ==> t.id != s.id
    ensures UniqueShowIds(shows + [s])
  {
    var xs := shows + [s];
    forall i, j | 0 <= i < |xs| && 0 <= j < |xs| && xs[i].id == xs[j].id ensures i == j {
      if i < |shows| { assert xs[i] == shows[i] && shows[i] in shows; }
      if j < |shows| { assert xs[j] == shows[j] && shows[j] in shows; }
    }
  }

  /** The integrity constraints of the three tables: keys are distinct and
      below their table's counter, and every show refers to an existing
      venue and an existing artist. */
  ghost predicate Consistent(venues: seq<Venue>, artists: seq<Artist>, shows: seq<Show>,
                             nextVenueId: int, nextArtistId: int, nextShowId: int)
  {
    && UniqueVenueIds(venues)
    && UniqueArtistIds(artists)
    && UniqueShowIds(shows)
    && (forall v :: v in venues ==> v.id < nextVenueId)
    && (forall a :: a in artists ==> a.id < nextArtistId)
    && (forall s :: s in shows ==> s.id < nextShowId)
    && (forall s :: s in shows ==> HasVenue(venues, s.venueId) && HasArtist(artists, s.artistId))
  }

  /** Appending a venue under the next key keeps the tables consistent; no
      existing row or show uses that key. */
  lemma InsertVenueConsistent(venues: seq<Venue>, artists: seq<Artist>, shows: seq<Show>,
                              nv: int, na: int, ns: int, v: Venue)
    requires Consistent(venues, artists, shows, nv, na, ns) && v.id == nv
    ensures Consistent(venues + [v], artists, shows, nv + 1, na, ns)
    ensures !HasVenue(venues, nv)
    ensures forall s :: s in shows ==> s.venueId != nv
  {
    var vs := venues + [v];
    forall i, j | 0 <= i < |vs| && 0 <= j < |vs| && vs[i].id == vs[j].id ensures i == j {
      if i < |venues| { assert venues[i] in venues; }
      if j < |venues| { assert venues[j] in venues; }
    }
    forall s | s in shows ensures HasVenue(vs, s.venueId) && s.venueId != nv {
      var i :| 0 <= i < |venues| && venues[i].id == s.venueId;
      assert vs[i] == venues[i] && venues[i] in venues;
    }
    forall i | 0 <= i < |venues| ensures venues[i].id != nv {
      assert venues[i] in venues;
    }
  }

  /** Appending an artist under the next key keeps the tables consistent; no
      existing row or show uses that key. */
  lemma InsertArtistConsistent(venues: seq<Venue>, artists: seq<Artist>, shows: seq<Show>,
                               nv: int, na: int, ns: int, a: Artist)
    requires Consistent(venues, artists, shows, nv, na, ns) && a.id == na
    ensures Consistent(venues, artists + [a], shows, nv, na + 1, ns)
    ensures !HasArtist(artists, na)
    ensures forall s :: s in shows ==> s.artistId != na
  {
    var xs := artists + [a];
    forall i, j | 0 <= i < |xs| && 0 <= j < |xs| && xs[i].id == xs[j].id ensures i == j {
      if i < |artists| { assert artists[i] in artists; }
      if j < |artists| { assert artists[j] in artists; }
    }
    forall s | s in shows ensures HasArtist(xs, s.artistId) && s.artistId != na {
      var i :| 0 <= i < |artists| && artists[i].id == s.artistId;
      assert xs[i] == artists[i] && artists[i] in artists;
    }
    forall i | 0 <= i < |artists| ensures artists[i].id != na {
      assert artists[i] in artists;
    }
  }

  /** Appending a show under the next key, naming an existing venue and an
      existing artist, keeps the tables consistent. */
  lemma InsertShowConsistent(venues: seq<Venue>, artists: seq<Artist>, shows: seq<Show>,
                             nv: int, na: int, ns: int, s: Show)
    requires Consistent(venues, artists, shows, nv, na, ns) && s.id == ns
    requires HasVenue(venues, s.venueId) && HasArtist(artists, s.artistId)
    ensures Consistent(venues, artists, shows + [s], nv, na, ns + 1)
  {
    AppendKeepsUniqueIds(shows, s);
  }

  /** Overwriting a venue row with one of the same key keeps the tables
      consistent. */
  lemma ReplaceVenueConsistent(venues: seq<Venue>, artists: seq<Artist>, shows: seq<Show>,
                               nv: int, na: int, ns: int, k: nat, v: Venue)
    requires Consistent(venues, artists, shows, nv, na, ns)
    requires k < |venues| && v.id == venues[k].id
    ensures Consistent(venues[k := v], artists, shows, nv, na, ns)
  {
    var vs := venues[k := v];
    assert forall i :: 0 <= i < |vs| ==> vs[i].id == venues[i].id;
    forall w | w in vs ensures w.id < nv {
      var i :| 0 <= i < |vs| && vs[i] == w;
      assert venues[i] in venues;
    }
    forall s | s in shows ensures HasVenue(vs, s.venueId) {
      var i :| 0 <= i < |venues| && venues[i].id == s.venueId;
      assert vs[i].id == s.venueId;
    }
  }

  /** Overwriting an artist row with one of the same key keeps the tables
      consistent. */
  lemma ReplaceArtistConsistent(venues: seq<Venue>, artists: seq<Artist>, shows: seq<Show>,
                                nv: int, na: int, ns: int, k: nat, a: Artist)
    requires Consistent(venues, artists, shows, nv, na, ns)
    requires k < |artists| && a.id == artists[k].id
    ensures Consistent(venues, artists[k := a], shows, nv, na, ns)
  {
    var xs := artists[k := a];
    assert forall i :: 0 <= i < |xs| ==> xs[i].id == artists[i].id;
    forall w | w in xs ensures w.id < na {
      var i :| 0 <= i < |xs| && xs[i] == w;
      assert artists[i] in artists;
    }
    forall s | s in shows ensures HasArtist(xs, s.artistId) {
      var i :| 0 <= i < |artists| && artists[i].id == s.artistId;
      assert xs[i].id == s.artistId;
    }
  }

  /** Removing the venue at position `k` together with its shows keeps the
      tables consistent, and no remaining show names the removed key. */
  lemma DeleteVenueConsistent(venues: seq<Venue>, artists: seq<Artist>, shows: seq<Show>,
                              nv: int, na: int, ns: int, k: nat)
    requires Consistent(venues, artists, shows, nv, na, ns) && k < |venues|
    ensures var id := venues[k].id;
            var kept := Select(shows, Not(AtVenue(id)));
      && Consistent(venues[..k] + venues[k + 1..], artists, kept, nv, na, ns)
      && (forall s :: s in kept ==> s.venueId != id)
  {
    var id := venues[k].id;
    var rest := venues[..k] + venues[k + 1..];
    var kept := Select(shows, Not(AtVenue(id)));
    RemoveVenueAt(venues, k);
    SelectKeepsUniqueIds(shows, Not(AtVenue(id)));
    forall s | s in kept ensures s in shows && s.venueId != id {
      assert Holds(Not(AtVenue(id)), s) && !Holds(AtVenue(id), s);
    }
    forall s | s in kept ensures HasVenue(rest, s.venueId) {
      assert HasVenue(venues, s.venueId);
    }
  }

  /** Removing the artist at position `k` together with its shows keeps the
      tables consistent, and no remaining show names the removed key. */
  lemma DeleteArtistConsistent(venues: seq<Venue>, artists: seq<Artist>, shows: seq<Show>,
                               nv: int, na: int, ns: int, k: nat)
    requires Consistent(venues, artists, shows, nv, na, ns) && k < |artists|
    ensures var id := artists[k].id;
            var kept := Select(shows, Not(ByArtist(id)));
      && Consistent(venues, artists[..k] + artists[k + 1..], kept, nv, na, ns)
      && (forall s :: s in kept ==> s.artistId != id)
  {
    var id := artists[k].id;
    var rest := artists[..k] + artists[k + 1..];
    var kept := Select(shows, Not(ByArtist(id)));
    RemoveArtistAt(artists, k);
    SelectKeepsUniqueIds(shows, Not(ByArtist(id)));
    forall s | s in kept ensures s in shows && s.artistId != id {
      assert Holds(Not(ByArtist(id)), s) && !Holds(ByArtist(id), s);
    }
    forall s | s in kept ensures HasArtist(rest, s.artistId) {
      assert HasArtist(artists, s.artistId);
    }
  }

  class Database {
    var venues: seq<Venue>
    var artists: seq<Artist>
    var shows: seq<Show>
    var nextVenueId: int
    var nextArtistId: int
    var nextShowId: int

    /** The tables satisfy their integrity constraints. */
    ghost predicate Valid()
      reads this
    {
      Consistent(venues, artists, shows, nextVenueId, nextArtistId, nextShowId)
    }

    /** An empty store. */
    constructor ()
      ensures Valid()
      ensures venues == [] && artists == [] && shows == []
    {
      venues, artists, shows := [], [], [];
      nextVenueId, nextArtistId, nextShowId := 1, 1, 1;
    }

    /** `venue.shows`: the shows held at the venue keyed `id`, in table order. */
    function VenueShows(id: int): (r: seq<Show>)
      reads this
      ensures forall s :: s in r <==> s in shows && s.venueId == id
    {
      Select(shows, AtVenue(id))
    }

    /** `artist.shows`: the shows the artist keyed `id` plays, in table order. */
    function ArtistShows(id: int): (r: seq<Show>)
      reads this
      ensures forall s :: s in r <==> s in shows && s.artistId == id
    {
      Select(shows, ByArtist(id))
    }

    /** Inserts `Venue(**d)` under the next key. */
    method InsertVenue(d: VenueData) returns (id: int)
      requires Valid()
      modifies this
      ensures Valid()
      ensures id == old(nextVenueId) && !HasVenue(old(venues), id)
      ensures venues == old(venues) + [NewVenue(id, d)]
      ensures artists == old(artists) && shows == old(shows)
      ensures nextVenueId == old(nextVenueId) + 1
      ensures nextArtistId == old(nextArtistId) && nextShowId == old(nextShowId)
      ensures VenueShows(id) == []
    {
      id := nextVenueId;
      var v := NewVenue(id, d);
      InsertVenueConsistent(venues, artists, shows, nextVenueId, nextArtistId, nextShowId, v);
      venues := venues + [v];
      nextVenueId := nextVenueId + 1;
      SelectNoneHolds(shows, AtVenue(id));
    }

    /** Inserts `Artist(**d)` under the next key. */
    method InsertArtist(d: ArtistData) returns (id: int)
      requires Valid()
      modifies this
      ensures Valid()
      ensures id == old(nextArtistId) && !HasArtist(old(artists), id)
      ensures artists == old(artists) + [NewArtist(id, d)]
      ensures venues == old(venues) && shows == old(shows)
      ensures nextArtistId == old(nextArtistId) + 1
      ensures nextVenueId == old(nextVenueId) && nextShowId == old(nextShowId)
      ensures ArtistShows(id) == []
    {
      id := nextArtistId;
      var a := NewArtist(id, d);
      InsertArtistConsistent(venues, artists, shows, nextVenueId, nextArtistId, nextShowId, a);
      artists := artists + [a];
      nextArtistId := nextArtistId + 1;
      SelectNoneHolds(shows, ByArtist(id));
    }

    /** Inserts a show under the next key; its venue and artist must exist,
        as the foreign keys demand. */
    method InsertShow(venueId: int, artistId: int, startTime: Timestamp) returns (id: int)
      requires Valid()
      requires HasVenue(venues, venueId) && HasArtist(artists, artistId)
      modifies this
      ensures Valid()
      ensures id == old(nextShowId)
      ensures shows == old(shows) + [Show(id, venueId, artistId, startTime)]
      ensures venues == old(venues) && artists == old(artists)
      ensures nextShowId == old(nextShowId) + 1
      ensures nextVenueId == old(nextVenueId) && nextArtistId == old(nextArtistId)
    {
      id := nextShowId;
      var s := Show(id, venueId, artistId, startTime);
      InsertShowConsistent(venues, artists, shows, nextVenueId, nextArtistId, nextShowId, s);
      shows := shows + [s];
      nextShowId := nextShowId + 1;
    }

    /** Overwrites the venue row at position `k` with `v`, which keeps its key. */
    method ReplaceVenue(k: nat, v: Venue)
      requires Valid()
      requires k < |venues| && v.id == venues[k].id
      modifies this`venues
      ensures Valid()
      ensures venues == old(venues)[k := v]
    {
      ReplaceVenueConsistent(venues, artists, shows, nextVenueId, nextArtistId, nextShowId, k, v);
      venues := venues[k := v];
    }

    /** Overwrites the artist row at position `k` with `a`, which keeps its key. */
    method ReplaceArtist(k: nat, a: Artist)
      requires Valid()
      requires k < |artists| && a.id == artists[k].id
      modifies this`artists
      ensures Valid()
      ensures artists == old(artists)[k := a]
    {
      ReplaceArtistConsistent(venues, artists, shows, nextVenueId, nextArtistId, nextShowId, k, a);
      artists := artists[k := a];
    }

    /** `session.delete(venue)`: removes the venue keyed `id` and, by the
        cascade, every show held there. */
    method DeleteVenue(id: int)
      requires Valid() && HasVenue(venues, id)
      modifies this`venues, this`shows
      ensures Valid()
      ensures var k := VenueIndex(old(venues), id).value;
              venues == old(venues)[..k] + old(venues)[k + 1..]
      ensures !HasVenue(venues, id)
      ensures forall v :: v in venues <==> v in old(venues) && v.id != id
      ensures shows == Select(old(shows), Not(AtVenue(id)))
      ensures forall s :: s in shows ==> s.venueId != id
    {
      var k := VenueIndex(venues, id).value;
      RemoveVenueAt(venues, k);
      DeleteVenueConsistent(venues, artists, shows, nextVenueId, nextArtistId, nextShowId, k);
      venues := venues[..k] + venues[k + 1..];
      shows := Select(shows, Not(AtVenue(id)));
    }

    /** `session.delete(artist)`: removes the artist keyed `id` and, by the
        cascade, every show the artist plays. */
    method DeleteArtist(id: int)
      requires Valid() && HasArtist(artists, id)
      modifies this`artists, this`shows
      ensures Valid()
      ensures var k := ArtistIndex(old(artists), id).value;
              artists == old(artists)[..k] + old(artists)[k + 1..]
      ensures !HasArtist(artists, id)
      ensures forall a :: a in artists <==> a in old(artists) && a.id != id
      ensures shows == Select(old(shows), Not(ByArtist(id)))
      ensures forall s :: s in shows ==> s.artistId != id
    {
      var k := ArtistIndex(artists, id).value;
      RemoveArtistAt(artists, k);
      DeleteArtistConsistent(venues, artists, shows, nextVenueId, nextArtistId, nextShowId, k);
      artists := artists[..k] + artists[k + 1..];
      shows := Select(shows, Not(ByArtist(id)));
    }
  }
}
