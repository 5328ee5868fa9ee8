/**
 * The record types of the booking site (Venue, Artist, Show), the way a
 * list of shows is filtered (by start time against "now", or by the venue
 * or artist it belongs to), the two per-record show counters, and the JSON
 * projection of a Venue or Artist record.
 *
 * A datetime is an integer here and "now" is a parameter: the counters read
 * the clock once per call, so one call sees one fixed instant.
 */
module Models {
  import opened Wrappers

  /** A datetime, compared as an integer. */
  type Timestamp = int

  /** A nullable string column. */
  type Text = Option<string>

  /** One row of the Show table: a venue and an artist booked at a time. */
  datatype Show = Show(id: int, venueId: int, artistId: int, startTime: Timestamp)

  /** One row of the Venue table. */
  datatype Venue = Venue(
    id: int, name: Text, city: Text, state: Text, address: Text, phone: Text,
    imageLink: Text, facebookLink: Text, genres: seq<string>, website: Text,
    seekingTalent: bool, seekingDescription: Text)

  /** One row of the Artist table. */
  datatype Artist = Artist(
    id: int, name: Text, city: Text, state: Text, phone: Text, genres: seq<string>,
    imageLink: Text, facebookLink: Text, website: Text,
    seekingVenue: bool, seekingDescription: Text)

  /** The keyword arguments of `Venue(**data)`: every column but the key.
      A seeking flag that is not supplied is `None`. */
  datatype VenueData = VenueData(
    name: Text, city: Text, state: Text, address: Text, phone: Text,
    genres: seq<string>, imageLink: Text, facebookLink: Text, website: Text,
    seekingTalent: Option<bool>, seekingDescription: Text)

  /** The keyword arguments of `Artist(**data)`. */
  datatype ArtistData = ArtistData(
    name: Text, city: Text, state: Text, phone: Text, genres: seq<string>,
    imageLink: Text, facebookLink: Text, website: Text,
    seekingVenue: Option<bool>, seekingDescription: Text)

  // ---------------------------------------------------------------------
  // Records built from keyword arguments; the seeking flags default to false
  // ---------------------------------------------------------------------

  /** The non-key columns of a stored venue, every one of them supplied. */
  function VenueDataOf(v: Venue): VenueData {
    VenueData(v.name, v.city, v.state, v.address, v.phone, v.genres, v.imageLink,
              v.facebookLink, v.website, Some(v.seekingTalent), v.seekingDescription)
  }

  /** The non-key columns of a stored artist, every one of them supplied. */
  function ArtistDataOf(a: Artist): ArtistData {
    ArtistData(a.name, a.city, a.state, a.phone, a.genres, a.imageLink,
               a.facebookLink, a.website, Some(a.seekingVenue), a.seekingDescription)
  }

  /** The row stored for `Venue(**d)` under the key `id`. */
  function NewVenue(id: int, d: VenueData): (v: Venue)
    ensures v.id == id
    ensures d.seekingTalent == None ==> !v.seekingTalent
    ensures d.seekingTalent != None ==> VenueDataOf(v) == d
    ensures VenueDataOf(v) == d.(seekingTalent := Some(v.seekingTalent))
  {
    Venue(id, d.name, d.city, d.state, d.address, d.phone, d.imageLink, d.facebookLink,
          d.genres, d.website, d.seekingTalent.GetOr(false), d.seekingDescription)
  }

  /** The row stored for `Artist(**d)` under the key `id`. */
  function NewArtist(id: int, d: ArtistData): (a: Artist)
    ensures a.id == id
    ensures d.seekingVenue == None ==> !a.seekingVenue
    ensures d.seekingVenue != None ==> ArtistDataOf(a) == d
    ensures ArtistDataOf(a) == d.(seekingVenue := Some(a.seekingVenue))
  {
    Artist(id, d.name, d.city, d.state, d.phone, d.genres, d.imageLink, d.facebookLink,
           d.website, d.seekingVenue.GetOr(false), d.seekingDescription)
  }

  // ---------------------------------------------------------------------
  // Selecting shows
  // ---------------------------------------------------------------------

  /** A condition on a show. */
  datatype ShowFilter =
    | StartsBefore(now: Timestamp)   // counted as past by the counters
    | StartsAt(now: Timestamp)       // counted by neither counter
    | StartsAfter(now: Timestamp)    // upcoming, for the counters and the detail views
    | AtVenue(venueId: int)          // the shows of one venue
    | ByArtist(artistId: int)        // the shows of one artist
    | Not(negated: ShowFilter)

  predicate Holds(f: ShowFilter, s: Show) {
    match f
    case StartsBefore(now) => s.startTime < now
    case StartsAt(now) => s.startTime == now
    case StartsAfter(now) => now < s.startTime
    case AtVenue(id) => s.venueId == id
    case ByArtist(id) => s.artistId == id
    case Not(g) => !Holds(g, s)
  }

  /** The shows that satisfy `f`, in their original order. */
  function Select(shows: seq<Show>, f: ShowFilter): (r: seq<Show>)
    ensures |r| <= |shows|
    ensures forall s :: s in r <==> s in shows && Holds(f, s)
  {
    if shows == [] then []
    else (if Holds(f, shows[0]) then [shows[0]] else []) + Select(shows[1..], f)
  }

  /** Nothing is selected when no show satisfies the filter. */
  lemma {:induction false} SelectNoneHolds(shows: seq<Show>, f: ShowFilter)
    requires forall s :: s in shows ==> !Holds(f, s)
    ensures Select(shows, f) == []
  {
    if shows != [] {
      SelectNoneHolds(shows[1..], f);
    }
  }

  /** A show that survives `Not(f)` is never picked by `f`. */
  lemma SelectAfterExcluding(shows: seq<Show>, f: ShowFilter)
    ensures Select(Select(shows, Not(f)), f) == []
  {
    SelectNoneHolds(Select(shows, Not(f)), f);
  }

  /** `a` is `b` with some elements left out and the rest in the same order. */
  predicate IsSubsequence(a: seq<Show>, b: seq<Show>) {
    if a == [] then true
    else if b == [] then false
    else if a[0] == b[0] then IsSubsequence(a[1..], b[1..])
    else IsSubsequence(a, b[1..])
  }

  /** Selecting keeps the order of the original list. */
  lemma {:induction false} SelectKeepsOrder(shows: seq<Show>, f: ShowFilter)
    ensures IsSubsequence(Select(shows, f), shows)
  {
    if shows != [] {
      SelectKeepsOrder(shows[1..], f);
      var rest := Select(shows[1..], f);
      if Holds(f, shows[0]) {
        assert Select(shows, f) == [shows[0]] + rest;
        assert ([shows[0]] + rest)[1..] == rest;
      } else {
        assert Select(shows, f) == rest;
        SubsequenceOfTail(rest, shows);
      }
    }
  }

  lemma {:induction false} SubsequenceOfTail(a: seq<Show>, b: seq<Show>)
    requires b != [] && IsSubsequence(a, b[1..])
    ensures IsSubsequence(a, b)
  {
    if a != [] && a[0] == b[0] {
      // a[1..] is a subsequence of b[1..] since a is
      DropHead(a, b[1..]);
    }
  }

  lemma {:induction false} DropHead(a: seq<Show>, b: seq<Show>)
    requires a != [] && IsSubsequence(a, b)
    ensures IsSubsequence(a[1..], b)
  {
    if a[0] == b[0] {
      if b[1..] != [] {
        SubsequenceOfTail(a[1..], b);
      } else {
        assert IsSubsequence(a[1..], b[1..]);
      }
    } else {
      DropHead(a, b[1..]);
      SubsequenceOfTail(a[1..], b);
    }
  }

  /** Selecting from a concatenation selects from each part. */
  lemma {:induction false} SelectConcat(a: seq<Show>, b: seq<Show>, f: ShowFilter)
    ensures Select(a + b, f) == Select(a, f) + Select(b, f)
  {
    if a == [] {
      assert a + b == b;
    } else {
      var ab := a + b;
      assert ab[0] == a[0] && ab[1..] == a[1..] + b;
      SelectConcat(a[1..], b, f);
    }
  }

  /** Selecting from a list with one more show at the end. */
  lemma SelectSnoc(shows: seq<Show>, s: Show, f: ShowFilter)
    ensures Select(shows + [s], f) == if Holds(f, s) then Select(shows, f) + [s] else Select(shows, f)
  {
    SelectConcat(shows, [s], f);
    assert Select([s], f) == if Holds(f, s) then [s] else [];
  }

  /** Each show lands in exactly one of `Select(shows, f)` and `Select(shows, Not(f))`. */
  lemma {:induction false} SelectPartition(shows: seq<Show>, f: ShowFilter)
    ensures multiset(Select(shows, f)) + multiset(Select(shows, Not(f))) == multiset(shows)
  {
    if shows != [] {
      var s, rest := shows[0], shows[1..];
      SelectPartition(rest, f);
      assert shows == [s] + rest;
      assert multiset(shows) == multiset{s} + multiset(rest);
      if Holds(f, s) {
        assert Select(shows, f) == [s] + Select(rest, f);
        assert Select(shows, Not(f)) == Select(rest, Not(f));
      } else {
        assert Select(shows, f) == Select(rest, f);
        assert Select(shows, Not(f)) == [s] + Select(rest, Not(f));
      }
    }
  }

  /** How often a show occurs in a selection: as often as in the list if it
      satisfies the filter, otherwise never. */
  lemma {:induction false} SelectMultiplicity(shows: seq<Show>, f: ShowFilter, s: Show)
    ensures multiset(Select(shows, f))[s] == if Holds(f, s) then multiset(shows)[s] else 0
  {
    if shows != [] {
      var head, tail := shows[0], shows[1..];
      var kept := if Holds(f, head) then [head] else [];
      SelectMultiplicity(tail, f, s);
      assert shows == [head] + tail;
      assert multiset(shows) == multiset([head]) + multiset(tail);
      assert Select(shows, f) == kept + Select(tail, f);
      assert multiset(Select(shows, f)) == multiset(kept) + multiset(Select(tail, f));
    }
  }

  /** Reordering a list of shows does not change what is selected from it,
      up to order. */
  lemma SelectIgnoresOrder(a: seq<Show>, b: seq<Show>, f: ShowFilter)
    requires multiset(a) == multiset(b)
    ensures multiset(Select(a, f)) == multiset(Select(b, f))
    ensures |Select(a, f)| == |Select(b, f)|
  {
    forall s ensures multiset(Select(a, f))[s] == multiset(Select(b, f))[s] {
      SelectMultiplicity(a, f, s);
      SelectMultiplicity(b, f, s);
    }
    assert multiset(Select(a, f)) == multiset(Select(b, f));
    calc {
      |Select(a, f)|;
      |multiset(Select(a, f))|;
      |multiset(Select(b, f))|;
      |Select(b, f)|;
    }
  }

  // ---------------------------------------------------------------------
  // The counters
  // ---------------------------------------------------------------------

  /** The number of shows that start strictly before `now`. */
  function PastCount(shows: seq<Show>, now: Timestamp): nat {
    |Select(shows, StartsBefore(now))|
  }

  /** The number of shows that start strictly after `now`. */
  function UpcomingCount(shows: seq<Show>, now: Timestamp): nat {
    |Select(shows, StartsAfter(now))|
  }

  /** `past_shows_count`: one pass over the shows, counting those that start
      before the instant read at the start of the call. */
  method PastShowsCount(shows: seq<Show>, now: Timestamp) returns (count: nat)
    ensures count == PastCount(shows, now)
  {
    count := 0;
    for i := 0 to |shows|
      invariant count == PastCount(shows[..i], now)
    {
      SelectConcat(shows[..i], [shows[i]], StartsBefore(now));
      assert shows[..i + 1] == shows[..i] + [shows[i]];
      if shows[i].startTime < now {
        count := count + 1;
      }
    }
    assert shows[..|shows|] == shows;
  }

  /** `upcoming_shows_count`: one pass over the shows, counting those that
      start after the instant read at the start of the call. */
  method UpcomingShowsCount(shows: seq<Show>, now: Timestamp) returns (count: nat)
    ensures count == UpcomingCount(shows, now)
  {
    count := 0;
    for i := 0 to |shows|
      invariant count == UpcomingCount(shows[..i], now)
    {
      SelectConcat(shows[..i], [shows[i]], StartsAfter(now));
      assert shows[..i + 1] == shows[..i] + [shows[i]];
      if shows[i].startTime > now {
        count := count + 1;
      }
    }
    assert shows[..|shows|] == shows;
  }

  /** Every show starts before, at or after `now`, and only one of these. */
  lemma {:induction false} TimeTrichotomy(shows: seq<Show>, now: Timestamp)
    ensures PastCount(shows, now) + |Select(shows, StartsAt(now))| + UpcomingCount(shows, now) == |shows|
  {
    if shows != [] {
      TimeTrichotomy(shows[1..], now);
    }
  }

  /** Past and upcoming together never exceed the number of shows, and they
      account for all of them exactly when no show starts at `now`. */
  lemma CountsCoverShows(shows: seq<Show>, now: Timestamp)
    ensures 0 <= PastCount(shows, now) <= |shows|
    ensures 0 <= UpcomingCount(shows, now) <= |shows|
    ensures PastCount(shows, now) + UpcomingCount(shows, now) <= |shows|
    ensures PastCount(shows, now) + UpcomingCount(shows, now) == |shows|
        <==> forall s :: s in shows ==> s.startTime != now
  {
    TimeTrichotomy(shows, now);
    var atNow := Select(shows, StartsAt(now));
    if forall s :: s in shows ==> s.startTime != now {
      SelectNoneHolds(shows, StartsAt(now));
    } else {
      var s :| s in shows && s.startTime == now;
      assert s in atNow;
    }
  }

  /** Neither counter depends on the order of the show list. */
  lemma CountsIgnoreOrder(a: seq<Show>, b: seq<Show>, now: Timestamp)
    requires multiset(a) == multiset(b)
    ensures PastCount(a, now) == PastCount(b, now)
    ensures UpcomingCount(a, now) == UpcomingCount(b, now)
  {
    SelectIgnoresOrder(a, b, StartsBefore(now));
    SelectIgnoresOrder(a, b, StartsAfter(now));
  }

  /** The shows that do not start after `now` are the past ones plus those
      starting exactly at `now`. */
  lemma {:induction false} NotAfterIsPastOrNow(shows: seq<Show>, now: Timestamp)
    ensures |Select(shows, Not(StartsAfter(now)))| == PastCount(shows, now) + |Select(shows, StartsAt(now))|
  {
    if shows != [] {
      NotAfterIsPastOrNow(shows[1..], now);
      var t := shows[0].startTime;
      assert Holds(Not(StartsAfter(now)), shows[0]) == !Holds(StartsAfter(now), shows[0]);
      assert |Select(shows, Not(StartsAfter(now)))| == (if t <= now then 1 else 0) + |Select(shows[1..], Not(StartsAfter(now)))|;
      assert PastCount(shows, now) == (if t < now then 1 else 0) + PastCount(shows[1..], now);
      assert |Select(shows, StartsAt(now))| == (if t == now then 1 else 0) + |Select(shows[1..], StartsAt(now))|;
    }
  }

  // ---------------------------------------------------------------------
  // JSON projection
  // ---------------------------------------------------------------------

  /** The mapping `Venue.toJson` returns. */
  datatype VenueJson = VenueJson(
    id: int, name: Text, genres: seq<string>, address: Text, city: Text, state: Text,
    phone: Text, website: Text, facebookLink: Text, seekingTalent: bool,
    seekingDescription: Text, imageLink: Text, pastShowsCount: nat, upcomingShowsCount: nat)

  /** The mapping `Artist.toJson` returns. */
  datatype ArtistJson = ArtistJson(
    id: int, name: Text, genres: seq<string>, city: Text, state: Text, phone: Text,
    website: Text, facebookLink: Text, seekingVenue: bool, seekingDescription: Text,
    imageLink: Text, pastShowsCount: nat, upcomingShowsCount: nat)

  /** The stored columns a venue's JSON carries. */
  function VenueOfJson(j: VenueJson): Venue {
    Venue(j.id, j.name, j.city, j.state, j.address, j.phone, j.imageLink, j.facebookLink,
          j.genres, j.website, j.seekingTalent, j.seekingDescription)
  }

  /** The stored columns an artist's JSON carries. */
  function ArtistOfJson(j: ArtistJson): Artist {
    Artist(j.id, j.name, j.city, j.state, j.phone, j.genres, j.imageLink, j.facebookLink,
           j.website, j.seekingVenue, j.seekingDescription)
  }

  /** `Venue.toJson`, given the venue's shows and the instant of the call:
      every stored column unchanged, plus the two counts. */
  function VenueToJson(v: Venue, shows: seq<Show>, now: Timestamp): (j: VenueJson)
    ensures VenueOfJson(j) == v
    ensures j.pastShowsCount == PastCount(shows, now)
    ensures j.upcomingShowsCount == UpcomingCount(shows, now)
  {
    VenueJson(v.id, v.name, v.genres, v.address, v.city, v.state, v.phone, v.website,
              v.facebookLink, v.seekingTalent, v.seekingDescription, v.imageLink,
              PastCount(shows, now), UpcomingCount(shows, now))
  }

  /** `Artist.toJson`, given the artist's shows and the instant of the call. */
  function ArtistToJson(a: Artist, shows: seq<Show>, now: Timestamp): (j: ArtistJson)
    ensures ArtistOfJson(j) == a
    ensures j.pastShowsCount == PastCount(shows, now)
    ensures j.upcomingShowsCount == UpcomingCount(shows, now)
  {
    ArtistJson(a.id, a.name, a.genres, a.city, a.state, a.phone, a.website,
               a.facebookLink, a.seekingVenue, a.seekingDescription, a.imageLink,
               PastCount(shows, now), UpcomingCount(shows, now))
  }
}
