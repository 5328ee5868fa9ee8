/**
 * The request handlers of the booking site, as operations on the store:
 * what each builds (the venue areas, the search results, the detail page of
 * a venue or an artist) and how each changes the store (create, edit, delete).
 *
 * An exception the store raises on commit is the parameter `commitFails`;
 * the instant the handlers read from the clock is the parameter `now`.
 */
module Handlers {
  import opened Wrappers
  import opened Models
  import opened Store
  import opened Forms

  /** How a create or edit request ends. */
  datatype Outcome =
    | Listed       // create: the "successfully listed" notice
    | NotListed    // create: the "could not be listed" notice, after a rollback
    | Redirected   // edit: redirect to the detail page
    | NotFound     // the record asked for does not exist (404)
    | ServerError  // an exception escaped the handler (500)

  /** The body of a delete response, `{'status': ...}`. */
  datatype Status = Success | Fail

  // ---------------------------------------------------------------------
  // Create
  // ---------------------------------------------------------------------

  /** `create_venue_submission`. The notices concatenate the submitted name,
      which raises when the form has no name: after a successful insert the
      except branch runs, raises again on its own notice, and the request
      ends in a server error with the row already committed. */
  method CreateVenue(db: Database, form: Form, commitFails: bool) returns (outcome: Outcome)
    requires db.Valid()
    modifies db
    ensures db.Valid()
    ensures commitFails ==> unchanged(db)
    ensures !commitFails ==>
      && db.venues == old(db.venues) + [NewVenue(old(db.nextVenueId), VenueFormData(form))]
      && db.artists == old(db.artists) && db.shows == old(db.shows)
      && db.nextVenueId == old(db.nextVenueId) + 1
      && db.nextArtistId == old(db.nextArtistId) && db.nextShowId == old(db.nextShowId)
    ensures outcome == if Get(form, "name") == None then ServerError
                       else if commitFails then NotListed else Listed
  {
    var data := VenueFormData(form);
    if commitFails {
      outcome := if Get(form, "name") == None then ServerError else NotListed;
    } else {
      var id := db.InsertVenue(data);
      outcome := if Get(form, "name") == None then ServerError else Listed;
    }
  }

  /** `create_artist_submission`; the same notices, the same failure on a
      missing name. */
  method CreateArtist(db: Database, form: Form, commitFails: bool) returns (outcome: Outcome)
    requires db.Valid()
    modifies db
    ensures db.Valid()
    ensures commitFails ==> unchanged(db)
    ensures !commitFails ==>
      && db.artists == old(db.artists) + [NewArtist(old(db.nextArtistId), ArtistFormData(form))]
      && db.venues == old(db.venues) && db.shows == old(db.shows)
      && db.nextArtistId == old(db.nextArtistId) + 1
      && db.nextVenueId == old(db.nextVenueId) && db.nextShowId == old(db.nextShowId)
    ensures outcome == if Get(form, "name") == None then ServerError
                       else if commitFails then NotListed else Listed
  {
    var data := ArtistFormData(form);
    if commitFails {
      outcome := if Get(form, "name") == None then ServerError else NotListed;
    } else {
      var id := db.InsertArtist(data);
      outcome := if Get(form, "name") == None then ServerError else Listed;
    }
  }

  /** `create_show_submission`, given the three submitted values as the
      store converts them: `None` is a value that is missing or does not
      convert. A missing value violates NOT NULL and an unknown venue or
      artist violates a foreign key; either makes the insert fail. */
  method CreateShow(db: Database, venueId: Option<int>, artistId: Option<int>,
                    startTime: Option<Timestamp>, commitFails: bool) returns (outcome: Outcome)
    requires db.Valid()
    modifies db
    ensures db.Valid()
    ensures outcome == Listed || outcome == NotListed
    ensures outcome == Listed <==>
      && venueId.Some? && artistId.Some? && startTime.Some?
      && HasVenue(old(db.venues), venueId.value) && HasArtist(old(db.artists), artistId.value)
      && !commitFails
    ensures outcome == NotListed ==> unchanged(db)
    ensures outcome == Listed ==>
      && db.shows == old(db.shows) + [Show(old(db.nextShowId), venueId.value, artistId.value, startTime.value)]
      && db.venues == old(db.venues) && db.artists == old(db.artists)
      && db.nextShowId == old(db.nextShowId) + 1
      && db.nextVenueId == old(db.nextVenueId) && db.nextArtistId == old(db.nextArtistId)
  {
    if venueId.Some? && artistId.Some? && startTime.Some?
       && VenueIndex(db.venues, venueId.value).Some? && ArtistIndex(db.artists, artistId.value).Some?
       && !commitFails
    {
      var id := db.InsertShow(venueId.value, artistId.value, startTime.value);
      outcome := Listed;
    } else {
      outcome := NotListed;
    }
  }

  // ---------------------------------------------------------------------
  // Edit
  // ---------------------------------------------------------------------

  /** `edit_venue_submission`: every column of the venue is overwritten from
      the form, so an absent checkbox turns the seeking flag off; the key
      and the venue's shows stay. A failing commit is not caught: the
      request ends in a server error and the change is discarded. */
  method EditVenue(db: Database, id: int, form: Form, commitFails: bool) returns (outcome: Outcome)
    requires db.Valid()
    modifies db`venues
    ensures db.Valid()
    ensures !HasVenue(old(db.venues), id) ==> outcome == NotFound && db.venues == old(db.venues)
    ensures HasVenue(old(db.venues), id) && commitFails ==>
      outcome == ServerError && db.venues == old(db.venues)
    ensures HasVenue(old(db.venues), id) && !commitFails ==>
      && outcome == Redirected
      && db.venues == old(db.venues)[VenueIndex(old(db.venues), id).value := NewVenue(id, VenueFormData(form))]
    ensures db.VenueShows(id) == old(db.VenueShows(id))
  {
    var k := VenueIndex(db.venues, id);
    if k.None? {
      outcome := NotFound;
    } else if commitFails {
      outcome := ServerError;
    } else {
      db.ReplaceVenue(k.value, NewVenue(id, VenueFormData(form)));
      outcome := Redirected;
    }
  }

  /** `edit_artist_submission`: every column of the artist is overwritten
      from the form; the key and the artist's shows stay. */
  method EditArtist(db: Database, id: int, form: Form, commitFails: bool) returns (outcome: Outcome)
    requires db.Valid()
    modifies db`artists
    ensures db.Valid()
    ensures !HasArtist(old(db.artists), id) ==> outcome == NotFound && db.artists == old(db.artists)
    ensures HasArtist(old(db.artists), id) && commitFails ==>
      outcome == ServerError && db.artists == old(db.artists)
    ensures HasArtist(old(db.artists), id) && !commitFails ==>
      && outcome == Redirected
      && db.artists == old(db.artists)[ArtistIndex(old(db.artists), id).value := NewArtist(id, ArtistFormData(form))]
    ensures db.ArtistShows(id) == old(db.ArtistShows(id))
  {
    var k := ArtistIndex(db.artists, id);
    if k.None? {
      outcome := NotFound;
    } else if commitFails {
      outcome := ServerError;
    } else {
      db.ReplaceArtist(k.value, NewArtist(id, ArtistFormData(form)));
      outcome := Redirected;
    }
  }

  /** The seeking flag an edit stores comes from the form alone: it is on
      exactly when the first field sent under its key is "y", so an edit
      whose form lacks the checkbox turns the flag off whatever the row
      held before. */
  lemma EditSetsSeekingFlagFromForm(id: int, form: Form)
    ensures NewVenue(id, VenueFormData(form)).seekingTalent <==>
      exists i :: FirstAt(form, "seeking_talent", i) && form[i].value == "y"
    ensures NewArtist(id, ArtistFormData(form)).seekingVenue <==>
      exists i :: FirstAt(form, "seeking_venue", i) && form[i].value == "y"
    ensures (forall i :: 0 <= i < |form| ==> form[i].key != "seeking_talent") ==>
      !NewVenue(id, VenueFormData(form)).seekingTalent
    ensures (forall i :: 0 <= i < |form| ==> form[i].key != "seeking_venue") ==>
      !NewArtist(id, ArtistFormData(form)).seekingVenue
  {
    CheckboxIsFirstValueY(form, "seeking_talent");
    CheckboxIsFirstValueY(form, "seeking_venue");
  }

  // ---------------------------------------------------------------------
  // Delete
  // ---------------------------------------------------------------------

  /** `delete_venue`: the status is `Fail` exactly when an exception was
      raised, by the lookup of a missing venue or by the commit; the store
      is then rolled back. On success the venue is gone with all its shows. */
  method DeleteVenue(db: Database, id: int, commitFails: bool) returns (status: Status)
    requires db.Valid()
    modifies db`venues, db`shows
    ensures db.Valid()
    ensures status == Fail <==> !HasVenue(old(db.venues), id) || commitFails
    ensures status == Fail ==> db.venues == old(db.venues) && db.shows == old(db.shows)
    ensures status == Success ==>
      && !HasVenue(db.venues, id)
      && (var k := VenueIndex(old(db.venues), id).value;
          db.venues == old(db.venues)[..k] + old(db.venues)[k + 1..])
      && (forall v :: v in db.venues <==> v in old(db.venues) && v.id != id)
      && db.shows == Select(old(db.shows), Not(AtVenue(id)))
      && db.VenueShows(id) == []
  {
    var k := VenueIndex(db.venues, id);
    if k.None? || commitFails {
      status := Fail;
    } else {
      ghost var venues0 := db.venues;
      SelectAfterExcluding(db.shows, AtVenue(id));
      db.DeleteVenue(id);
      assert db.venues == venues0[..k.value] + venues0[k.value + 1..];
      status := Success;
    }
  }

  /** `delete_artist`: `Fail` exactly when an exception was raised, with the
      store rolled back; on success the artist is gone with all its shows. */
  method DeleteArtist(db: Database, id: int, commitFails: bool) returns (status: Status)
    requires db.Valid()
    modifies db`artists, db`shows
    ensures db.Valid()
    ensures status == Fail <==> !HasArtist(old(db.artists), id) || commitFails
    ensures status == Fail ==> db.artists == old(db.artists) && db.shows == old(db.shows)
    ensures status == Success ==>
      && !HasArtist(db.artists, id)
      && (var k := ArtistIndex(old(db.artists), id).value;
          db.artists == old(db.artists)[..k] + old(db.artists)[k + 1..])
      && (forall a :: a in db.artists <==> a in old(db.artists) && a.id != id)
      && db.shows == Select(old(db.shows), Not(ByArtist(id)))
      && db.ArtistShows(id) == []
  {
    var k := ArtistIndex(db.artists, id);
    if k.None? || commitFails {
      status := Fail;
    } else {
      ghost var artists0 := db.artists;
      SelectAfterExcluding(db.shows, ByArtist(id));
      db.DeleteArtist(id);
      assert db.artists == artists0[..k.value] + artists0[k.value + 1..];
      status := Success;
    }
  }
}
