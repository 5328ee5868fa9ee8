/**
 * The read-only request handlers: the venue listing grouped by area, the
 * two searches and the two detail pages. Each is a loop over query results
 * that builds the data a page is rendered with; each is stated against a
 * function that says what that data is.
 */
module Views {
  import opened Wrappers
  import opened Models
  import opened Store
  import opened Forms
  import opened Ilike

  /** One entry of the venue listing or of a search result:
      `{"id", "name", "num_upcoming_shows"}`. */
  datatype Summary = Summary(id: int, name: Text, numUpcomingShows: nat)

  function VenueSummary(shows: seq<Show>, v: Venue, now: Timestamp): Summary {
    Summary(v.id, v.name, UpcomingCount(Select(shows, AtVenue(v.id)), now))
  }

  function ArtistSummary(shows: seq<Show>, a: Artist, now: Timestamp): Summary {
    Summary(a.id, a.name, UpcomingCount(Select(shows, ByArtist(a.id)), now))
  }

  /** The entries for `venues`, one each, in order. */
  function VenueSummaries(shows: seq<Show>, venues: seq<Venue>, now: Timestamp): seq<Summary> {
    seq(|venues|, k requires 0 <= k < |venues| => VenueSummary(shows, venues[k], now))
  }

  /** The entries for `artists`, one each, in order. */
  function ArtistSummaries(shows: seq<Show>, artists: seq<Artist>, now: Timestamp): seq<Summary> {
    seq(|artists|, k requires 0 <= k < |artists| => ArtistSummary(shows, artists[k], now))
  }

  // ---------------------------------------------------------------------
  // The venue listing
  // ---------------------------------------------------------------------

  /** The (city, state) pair a venue is listed under. */
  function KeyOf(v: Venue): (Text, Text) {
    (v.city, v.state)
  }

  /** The `group_by(Venue.city, Venue.state)` query: every (city, state)
      pair that some venue has, once, in order of first appearance. */
  function AreaKeys(venues: seq<Venue>): (keys: seq<(Text, Text)>)
    ensures forall i, j :: 0 <= i < j < |keys| ==> keys[i] != keys[j]
    ensures forall v :: v in venues ==> KeyOf(v) in keys
    ensures forall key :: key in keys ==> exists v :: v in venues && KeyOf(v) == key
  {
    if venues == [] then []
    else
      var init := venues[..|venues| - 1];
      var last := venues[|venues| - 1];
      assert venues == init + [last];
      var keys := AreaKeys(init);
      if KeyOf(last) in keys then keys else keys + [KeyOf(last)]
  }

  /** The `Venue.query.filter(state == ..., city == ...)` query: the venues
      of one area, in table order. A missing city or state is matched as
      NULL, and NULL as equal to NULL, so venues with the same city and
      state, NULLs included, share an area. */
  function VenuesIn(venues: seq<Venue>, key: (Text, Text)): (r: seq<Venue>)
    ensures forall v :: v in r <==> v in venues && KeyOf(v) == key
  {
    if venues == [] then []
    else (if KeyOf(venues[0]) == key then [venues[0]] else []) + VenuesIn(venues[1..], key)
  }

  /** Selecting an area of a concatenation is selecting an area of each part: with the
      one-row case below, the rows keep their table order and each appears
      once. */
  lemma {:induction false} VenuesInConcat(a: seq<Venue>, b: seq<Venue>, key: (Text, Text))
    ensures VenuesIn(a + b, key) == VenuesIn(a, key) + VenuesIn(b, key)
  {
    if a == [] {
      assert a + b == b;
    } else {
      var ab := a + b;
      var kept := if KeyOf(a[0]) == key then [a[0]] else [];
      assert ab[0] == a[0] && ab[1..] == a[1..] + b;
      assert VenuesIn(ab, key) == kept + VenuesIn(a[1..] + b, key);
      assert VenuesIn(a, key) == kept + VenuesIn(a[1..], key);
      VenuesInConcat(a[1..], b, key);
    }
  }

  /** A table of one row gives that row exactly when it qualifies. */
  lemma VenuesInOfOne(v: Venue, key: (Text, Text))
    ensures VenuesIn([v], key) == if KeyOf(v) == key then [v] else []
  {
    assert [v][1..] == [];
  }

  /** A qualifying row occurs in the result as often as in the table, any
      other row never. */
  lemma {:induction false} VenuesInMultiplicity(venues: seq<Venue>, key: (Text, Text), v: Venue)
    ensures multiset(VenuesIn(venues, key))[v] == if KeyOf(v) == key then multiset(venues)[v] else 0
  {
    if venues != [] {
      var head, tail := venues[0], venues[1..];
      var kept := if KeyOf(head) == key then [head] else [];
      VenuesInMultiplicity(tail, key, v);
      assert venues == [head] + tail;
      assert multiset(venues) == multiset([head]) + multiset(tail);
      assert VenuesIn(venues, key) == kept + VenuesIn(tail, key);
      assert multiset(VenuesIn(venues, key)) == multiset(kept) + multiset(VenuesIn(tail, key));
    }
  }

  /** One area of the listing: its city and state and its venues. */
  datatype Area = Area(city: Text, state: Text, venues: seq<Summary>)

  function AreaOf(venues: seq<Venue>, shows: seq<Show>, key: (Text, Text), now: Timestamp): Area {
    Area(key.0, key.1, VenueSummaries(shows, VenuesIn(venues, key), now))
  }

  /** The `areas` the listing page is rendered with. */
  function Areas(venues: seq<Venue>, shows: seq<Show>, now: Timestamp): seq<Area> {
    var keys := AreaKeys(venues);
    seq(|keys|, i requires 0 <= i < |keys| => AreaOf(venues, shows, keys[i], now))
  }

  /** `venues`: for each area, the venues found there, each with its number
      of upcoming shows. */
  method ListVenues(db: Database, now: Timestamp) returns (areas: seq<Area>)
    ensures areas == Areas(db.venues, db.shows, now)
  {
    var venues, shows := db.venues, db.shows;
    var keys := AreaKeys(venues);
    areas := [];
    for i := 0 to |keys|
      invariant |areas| == i
      invariant forall k :: 0 <= k < i ==> areas[k] == AreaOf(venues, shows, keys[k], now)
    {
      var members := VenuesIn(venues, keys[i]);
      var entries: seq<Summary> := [];
      for j := 0 to |members|
        invariant |entries| == j
        invariant forall k :: 0 <= k < j ==> entries[k] == VenueSummary(shows, members[k], now)
      {
        var upcoming := UpcomingShowsCount(Select(shows, AtVenue(members[j].id)), now);
        entries := entries + [Summary(members[j].id, members[j].name, upcoming)];
      }
      assert entries == VenueSummaries(shows, members, now);
      areas := areas + [Area(keys[i].0, keys[i].1, entries)];
    }
  }

  /** Within one area: a venue is listed there exactly when it has the
      area's city and state, every entry is some venue's, and an area that
      some venue has is not empty. */
  lemma AreaMembers(venues: seq<Venue>, shows: seq<Show>, key: (Text, Text), now: Timestamp)
    requires UniqueVenueIds(venues)
    ensures var area := AreaOf(venues, shows, key, now);
      && (area.city, area.state) == key
      && (forall v :: v in venues ==> (VenueSummary(shows, v, now) in area.venues <==> KeyOf(v) == key))
      && (forall e :: e in area.venues ==> exists v :: v in venues && e == VenueSummary(shows, v, now))
      && ((exists v :: v in venues && KeyOf(v) == key) ==> area.venues != [])
  {
    var members := VenuesIn(venues, key);
    var entries := VenueSummaries(shows, members, now);
    forall v | v in venues
      ensures VenueSummary(shows, v, now) in entries <==> KeyOf(v) == key
    {
      if KeyOf(v) == key {
        var m :| 0 <= m < |members| && members[m] == v;
        assert entries[m] == VenueSummary(shows, v, now);
      }
      if VenueSummary(shows, v, now) in entries {
        var m :| 0 <= m < |entries| && entries[m] == VenueSummary(shows, v, now);
        var w := members[m];
        assert w in members && w in venues && w.id == v.id;
        var p :| 0 <= p < |venues| && venues[p] == w;
        var q :| 0 <= q < |venues| && venues[q] == v;
      }
    }
    forall e | e in entries
      ensures exists v :: v in venues && e == VenueSummary(shows, v, now)
    {
      var m :| 0 <= m < |entries| && entries[m] == e;
      assert members[m] in members;
    }
    if exists v :: v in venues && KeyOf(v) == key {
      var v :| v in venues && KeyOf(v) == key;
      assert v in members;
    }
  }

  /** The listing has one area per distinct (city, state) pair, none empty,
      and every venue is listed in the area of its own city and state and in
      no other. */
  lemma VenuesGroupedByArea(venues: seq<Venue>, shows: seq<Show>, now: Timestamp)
    requires UniqueVenueIds(venues)
    ensures var areas := Areas(venues, shows, now);
      && (forall i, j :: 0 <= i < j < |areas| ==>
            (areas[i].city, areas[i].state) != (areas[j].city, areas[j].state))
      && (forall v :: v in venues ==>
            exists i :: 0 <= i < |areas| && (areas[i].city, areas[i].state) == KeyOf(v))
      && (forall i, v :: 0 <= i < |areas| && v in venues ==>
            (VenueSummary(shows, v, now) in areas[i].venues <==> (areas[i].city, areas[i].state) == KeyOf(v)))
      && (forall i, e :: 0 <= i < |areas| && e in areas[i].venues ==>
            exists v :: v in venues && e == VenueSummary(shows, v, now))
      && (forall i :: 0 <= i < |areas| ==> areas[i].venues != [])
  {
    var keys := AreaKeys(venues);
    var areas := Areas(venues, shows, now);
    forall i | 0 <= i < |areas|
      ensures (areas[i].city, areas[i].state) == keys[i]
      ensures forall v :: v in venues ==>
        (VenueSummary(shows, v, now) in areas[i].venues <==> KeyOf(v) == keys[i])
      ensures forall e :: e in areas[i].venues ==>
        exists v :: v in venues && e == VenueSummary(shows, v, now)
      ensures areas[i].venues != []
    {
      assert areas[i] == AreaOf(venues, shows, keys[i], now);
      assert keys[i] in keys;
      AreaMembers(venues, shows, keys[i], now);
    }
    forall v | v in venues
      ensures exists i :: 0 <= i < |areas| && (areas[i].city, areas[i].state) == KeyOf(v)
    {
      var i :| 0 <= i < |keys| && keys[i] == KeyOf(v);
      assert (areas[i].city, areas[i].state) == KeyOf(v);
    }
  }

  // ---------------------------------------------------------------------
  // Search
  // ---------------------------------------------------------------------

  /** `request.form.get('search_term', '')`. */
  function SearchTerm(form: Form): string {
    Get(form, "search_term").GetOr("")
  }

  /** `name ILIKE '%term%'`; a NULL name matches nothing. */
  predicate NameMatches(name: Text, term: string) {
    name.Some? && Like(name.value, SearchPattern(term))
  }

  /** The venues a search finds, in table order. */
  function VenuesMatching(venues: seq<Venue>, term: string): (r: seq<Venue>)
    ensures forall v :: v in r <==> v in venues && NameMatches(v.name, term)
  {
    if venues == [] then []
    else (if NameMatches(venues[0].name, term) then [venues[0]] else []) + VenuesMatching(venues[1..], term)
  }

  /** Searching of a concatenation is searching of each part: with the
      one-row case below, the rows keep their table order and each appears
      once. */
  lemma {:induction false} VenuesMatchingConcat(a: seq<Venue>, b: seq<Venue>, term: string)
    ensures VenuesMatching(a + b, term) == VenuesMatching(a, term) + VenuesMatching(b, term)
  {
    if a == [] {
      assert a + b == b;
    } else {
      var ab := a + b;
      var kept := if NameMatches(a[0].name, term) then [a[0]] else [];
      assert ab[0] == a[0] && ab[1..] == a[1..] + b;
      assert VenuesMatching(ab, term) == kept + VenuesMatching(a[1..] + b, term);
      assert VenuesMatching(a, term) == kept + VenuesMatching(a[1..], term);
      VenuesMatchingConcat(a[1..], b, term);
    }
  }

  /** A table of one row gives that row exactly when it qualifies. */
  lemma VenuesMatchingOfOne(v: Venue, term: string)
    ensures VenuesMatching([v], term) == if NameMatches(v.name, term) then [v] else []
  {
    assert [v][1..] == [];
  }

  /** A qualifying row occurs in the result as often as in the table, any
      other row never. */
  lemma {:induction false} VenuesMatchingMultiplicity(venues: seq<Venue>, term: string, v: Venue)
    ensures multiset(VenuesMatching(venues, term))[v] == if NameMatches(v.name, term) then multiset(venues)[v] else 0
  {
    if venues != [] {
      var head, tail := venues[0], venues[1..];
      var kept := if NameMatches(head.name, term) then [head] else [];
      VenuesMatchingMultiplicity(tail, term, v);
      assert venues == [head] + tail;
      assert multiset(venues) == multiset([head]) + multiset(tail);
      assert VenuesMatching(venues, term) == kept + VenuesMatching(tail, term);
      assert multiset(VenuesMatching(venues, term)) == multiset(kept) + multiset(VenuesMatching(tail, term));
    }
  }

  /** The artists a search finds, in table order. */
  function ArtistsMatching(artists: seq<Artist>, term: string): (r: seq<Artist>)
    ensures forall a :: a in r <==> a in artists && NameMatches(a.name, term)
  {
    if artists == [] then []
    else (if NameMatches(artists[0].name, term) then [artists[0]] else []) + ArtistsMatching(artists[1..], term)
  }

  /** Searching of a concatenation is searching of each part: with the
      one-row case below, the rows keep their table order and each appears
      once. */
  lemma {:induction false} ArtistsMatchingConcat(a: seq<Artist>, b: seq<Artist>, term: string)
    ensures ArtistsMatching(a + b, term) == ArtistsMatching(a, term) + ArtistsMatching(b, term)
  {
    if a == [] {
      assert a + b == b;
    } else {
      var ab := a + b;
      var kept := if NameMatches(a[0].name, term) then [a[0]] else [];
      assert ab[0] == a[0] && ab[1..] == a[1..] + b;
      assert ArtistsMatching(ab, term) == kept + ArtistsMatching(a[1..] + b, term);
      assert ArtistsMatching(a, term) == kept + ArtistsMatching(a[1..], term);
      ArtistsMatchingConcat(a[1..], b, term);
    }
  }

  /** A table of one row gives that row exactly when it qualifies. */
  lemma ArtistsMatchingOfOne(a: Artist, term: string)
    ensures ArtistsMatching([a], term) == if NameMatches(a.name, term) then [a] else []
  {
    assert [a][1..] == [];
  }

  /** A qualifying row occurs in the result as often as in the table, any
      other row never. */
  lemma {:induction false} ArtistsMatchingMultiplicity(artists: seq<Artist>, term: string, a: Artist)
    ensures multiset(ArtistsMatching(artists, term))[a] == if NameMatches(a.name, term) then multiset(artists)[a] else 0
  {
    if artists != [] {
      var head, tail := artists[0], artists[1..];
      var kept := if NameMatches(head.name, term) then [head] else [];
      ArtistsMatchingMultiplicity(tail, term, a);
      assert artists == [head] + tail;
      assert multiset(artists) == multiset([head]) + multiset(tail);
      assert ArtistsMatching(artists, term) == kept + ArtistsMatching(tail, term);
      assert multiset(ArtistsMatching(artists, term)) == multiset(kept) + multiset(ArtistsMatching(tail, term));
    }
  }

  /** The `response` a search page is rendered with. */
  datatype SearchResult = SearchResult(count: nat, data: seq<Summary>)

  /** `search_venues`: the venues whose name matches, each with its number
      of upcoming shows, and their count. */
  method SearchVenues(db: Database, form: Form, now: Timestamp) returns (r: SearchResult)
    ensures r.count == |r.data| == |VenuesMatching(db.venues, SearchTerm(form))|
    ensures r.data == VenueSummaries(db.shows, VenuesMatching(db.venues, SearchTerm(form)), now)
  {
    var term := SearchTerm(form);
    var found := VenuesMatching(db.venues, term);
    var data: seq<Summary> := [];
    for i := 0 to |found|
      invariant |data| == i
      invariant forall k :: 0 <= k < i ==> data[k] == VenueSummary(db.shows, found[k], now)
    {
      var upcoming := UpcomingShowsCount(db.VenueShows(found[i].id), now);
      data := data + [Summary(found[i].id, found[i].name, upcoming)];
    }
    r := SearchResult(|found|, data);
  }

  /** `search_artists`: the artists whose name matches, each with its number
      of upcoming shows, and their count. */
  method SearchArtists(db: Database, form: Form, now: Timestamp) returns (r: SearchResult)
    ensures r.count == |r.data| == |ArtistsMatching(db.artists, SearchTerm(form))|
    ensures r.data == ArtistSummaries(db.shows, ArtistsMatching(db.artists, SearchTerm(form)), now)
  {
    var term := SearchTerm(form);
    var found := ArtistsMatching(db.artists, term);
    var data: seq<Summary> := [];
    for i := 0 to |found|
      invariant |data| == i
      invariant forall k :: 0 <= k < i ==> data[k] == ArtistSummary(db.shows, found[k], now)
    {
      var upcoming := UpcomingShowsCount(db.ArtistShows(found[i].id), now);
      data := data + [Summary(found[i].id, found[i].name, upcoming)];
    }
    r := SearchResult(|found|, data);
  }

  /** For a term without `%`, `_` or backslash, a venue search returns an
      entry for exactly the venues whose name contains the term, ignoring
      case; the empty term returns every venue that has a name. */
  lemma VenueSearchFindsSubstrings(venues: seq<Venue>, shows: seq<Show>, term: string, now: Timestamp)
    requires Plain(term)
    ensures var data := VenueSummaries(shows, VenuesMatching(venues, term), now);
      && (forall k :: 0 <= k < |data| ==>
            data[k].name.Some? && ContainsIgnoringCase(data[k].name.value, term))
      && (forall v :: v in venues && v.name.Some? && ContainsIgnoringCase(v.name.value, term) ==>
            VenueSummary(shows, v, now) in data)
    ensures forall v :: v in VenuesMatching(venues, "") <==> v in venues && v.name.Some?
  {
    var found := VenuesMatching(venues, term);
    var data := VenueSummaries(shows, found, now);
    forall k | 0 <= k < |data|
      ensures data[k].name.Some? && ContainsIgnoringCase(data[k].name.value, term)
    {
      assert found[k] in found;
      SearchIsSubstringMatch(found[k].name.value, term);
    }
    forall v | v in venues && v.name.Some? && ContainsIgnoringCase(v.name.value, term)
      ensures VenueSummary(shows, v, now) in data
    {
      SearchIsSubstringMatch(v.name.value, term);
      var k :| 0 <= k < |found| && found[k] == v;
      assert data[k] == VenueSummary(shows, v, now);
    }
    forall v | v in venues && v.name.Some? ensures NameMatches(v.name, "") {
      EmptyTermMatchesAll(v.name.value);
    }
  }

  /** For a term without `%`, `_` or backslash, an artist search returns an
      entry for exactly the artists whose name contains the term, ignoring
      case; the empty term returns every artist that has a name. */
  lemma ArtistSearchFindsSubstrings(artists: seq<Artist>, shows: seq<Show>, term: string, now: Timestamp)
    requires Plain(term)
    ensures var data := ArtistSummaries(shows, ArtistsMatching(artists, term), now);
      && (forall k :: 0 <= k < |data| ==>
            data[k].name.Some? && ContainsIgnoringCase(data[k].name.value, term))
      && (forall a :: a in artists && a.name.Some? && ContainsIgnoringCase(a.name.value, term) ==>
            ArtistSummary(shows, a, now) in data)
    ensures forall a :: a in ArtistsMatching(artists, "") <==> a in artists && a.name.Some?
  {
    var found := ArtistsMatching(artists, term);
    var data := ArtistSummaries(shows, found, now);
    forall k | 0 <= k < |data|
      ensures data[k].name.Some? && ContainsIgnoringCase(data[k].name.value, term)
    {
      assert found[k] in found;
      SearchIsSubstringMatch(found[k].name.value, term);
    }
    forall a | a in artists && a.name.Some? && ContainsIgnoringCase(a.name.value, term)
      ensures ArtistSummary(shows, a, now) in data
    {
      SearchIsSubstringMatch(a.name.value, term);
      var k :| 0 <= k < |found| && found[k] == a;
      assert data[k] == ArtistSummary(shows, a, now);
    }
    forall a | a in artists && a.name.Some? ensures NameMatches(a.name, "") {
      EmptyTermMatchesAll(a.name.value);
    }
  }

  // ---------------------------------------------------------------------
  // Detail pages
  // ---------------------------------------------------------------------

  /** A show on a venue's page: who plays, and when. */
  datatype ArtistCard = ArtistCard(artistId: int, artistName: Text, artistImageLink: Text, startTime: Timestamp)

  /** A show on an artist's page: where, and when. */
  datatype VenueCard = VenueCard(venueId: int, venueName: Text, venueImageLink: Text, startTime: Timestamp)

  /** The data a venue's page is rendered with. */
  datatype VenuePage = VenuePage(venue: VenueJson, pastShows: seq<ArtistCard>, upcomingShows: seq<ArtistCard>)

  /** The data an artist's page is rendered with. */
  datatype ArtistPage = ArtistPage(artist: ArtistJson, pastShows: seq<VenueCard>, upcomingShows: seq<VenueCard>)

  /** Every show in `shows` names an artist of `artists`. */
  predicate ArtistsExist(artists: seq<Artist>, shows: seq<Show>) {
    forall s :: s in shows ==> HasArtist(artists, s.artistId)
  }

  /** Every show in `shows` names a venue of `venues`. */
  predicate VenuesExist(venues: seq<Venue>, shows: seq<Show>) {
    forall s :: s in shows ==> HasVenue(venues, s.venueId)
  }

  /** The card of a show on a venue's page, from `show.artist`. In a
      consistent store every show names an existing artist, so the second
      case, which keeps only the key, is never reached by a page. */
  function ArtistCardFor(artists: seq<Artist>, s: Show): (c: ArtistCard)
    ensures c.artistId == s.artistId && c.startTime == s.startTime
    ensures HasArtist(artists, s.artistId) ==>
      exists a :: a in artists && a.id == s.artistId && c.artistName == a.name && c.artistImageLink == a.imageLink
  {
    match ArtistIndex(artists, s.artistId)
    case Some(k) =>
      var a := artists[k];
      assert a in artists;
      ArtistCard(a.id, a.name, a.imageLink, s.startTime)
    case None => ArtistCard(s.artistId, None, None, s.startTime)
  }

  /** The card of a show on an artist's page, from `show.venue`; the second
      case is never reached in a consistent store. */
  function VenueCardFor(venues: seq<Venue>, s: Show): (c: VenueCard)
    ensures c.venueId == s.venueId && c.startTime == s.startTime
    ensures HasVenue(venues, s.venueId) ==>
      exists v :: v in venues && v.id == s.venueId && c.venueName == v.name && c.venueImageLink == v.imageLink
  {
    match VenueIndex(venues, s.venueId)
    case Some(k) =>
      var v := venues[k];
      assert v in venues;
      VenueCard(v.id, v.name, v.imageLink, s.startTime)
    case None => VenueCard(s.venueId, None, None, s.startTime)
  }

  /** The cards for `shows`, one each, in order. */
  function ArtistCards(artists: seq<Artist>, shows: seq<Show>): seq<ArtistCard> {
    seq(|shows|, k requires 0 <= k < |shows| => ArtistCardFor(artists, shows[k]))
  }

  /** The cards for `shows`, one each, in order. */
  function VenueCards(venues: seq<Venue>, shows: seq<Show>): seq<VenueCard> {
    seq(|shows|, k requires 0 <= k < |shows| => VenueCardFor(venues, shows[k]))
  }

  /** One more show adds its card to the end of exactly one of the two
      lists: upcoming when it starts after `now`, past otherwise. */
  lemma ArtistSplitStep(artists: seq<Artist>, shows: seq<Show>, s: Show, now: Timestamp)
    ensures ArtistCards(artists, Select(shows + [s], StartsAfter(now))) ==
      ArtistCards(artists, Select(shows, StartsAfter(now))) + (if now < s.startTime then [ArtistCardFor(artists, s)] else [])
    ensures ArtistCards(artists, Select(shows + [s], Not(StartsAfter(now)))) ==
      ArtistCards(artists, Select(shows, Not(StartsAfter(now)))) + (if now < s.startTime then [] else [ArtistCardFor(artists, s)])
  {
    var upcoming, past := Select(shows, StartsAfter(now)), Select(shows, Not(StartsAfter(now)));
    if now < s.startTime {
      assert Select(shows + [s], StartsAfter(now)) == upcoming + [s] by {
        assert Holds(StartsAfter(now), s);
        SelectSnoc(shows, s, StartsAfter(now));
      }
      assert Select(shows + [s], Not(StartsAfter(now))) == past by {
        assert !Holds(Not(StartsAfter(now)), s);
        SelectSnoc(shows, s, Not(StartsAfter(now)));
      }
      ArtistCardsSnoc(artists, upcoming, s);
    } else {
      assert Select(shows + [s], StartsAfter(now)) == upcoming by {
        assert !Holds(StartsAfter(now), s);
        SelectSnoc(shows, s, StartsAfter(now));
      }
      assert Select(shows + [s], Not(StartsAfter(now))) == past + [s] by {
        assert Holds(Not(StartsAfter(now)), s);
        SelectSnoc(shows, s, Not(StartsAfter(now)));
      }
      ArtistCardsSnoc(artists, past, s);
    }
  }

  /** One more show gives one more card, at the end. */
  lemma ArtistCardsSnoc(artists: seq<Artist>, shows: seq<Show>, s: Show)
    ensures ArtistCards(artists, shows + [s]) == ArtistCards(artists, shows) + [ArtistCardFor(artists, s)]
  {
    var xs := shows + [s];
    var l, r := ArtistCards(artists, xs), ArtistCards(artists, shows) + [ArtistCardFor(artists, s)];
    assert |l| == |r|;
    forall k | 0 <= k < |l| ensures l[k] == r[k] {
      if k < |shows| {
        assert xs[k] == shows[k];
      }
    }
  }

  /** The loop of `show_venue` over the venue's shows: each becomes a card
      naming its artist, put under upcoming when it starts after `now` and
      under past otherwise, in the order of `shows`. */
  method SplitArtistCards(artists: seq<Artist>, shows: seq<Show>, now: Timestamp)
    returns (past: seq<ArtistCard>, upcoming: seq<ArtistCard>)
    ensures upcoming == ArtistCards(artists, Select(shows, StartsAfter(now)))
    ensures past == ArtistCards(artists, Select(shows, Not(StartsAfter(now))))
  {
    var upcomingRule, pastRule := StartsAfter(now), Not(StartsAfter(now));
    past, upcoming := [], [];
    for i := 0 to |shows|
      invariant upcoming == ArtistCards(artists, Select(shows[..i], upcomingRule))
      invariant past == ArtistCards(artists, Select(shows[..i], pastRule))
    {
      var show := shows[i];
      var card := ArtistCardFor(artists, show);
      assert shows[..i + 1] == shows[..i] + [show];
      ArtistSplitStep(artists, shows[..i], show, now);
      if now < show.startTime {
        upcoming := upcoming + [card];
      } else {
        past := past + [card];
      }
    }
    assert shows[..|shows|] == shows;
  }

  /** One more show adds its card to the end of exactly one of the two
      lists: upcoming when it starts after `now`, past otherwise. */
  lemma VenueSplitStep(venues: seq<Venue>, shows: seq<Show>, s: Show, now: Timestamp)
    ensures VenueCards(venues, Select(shows + [s], StartsAfter(now))) ==
      VenueCards(venues, Select(shows, StartsAfter(now))) + (if now < s.startTime then [VenueCardFor(venues, s)] else [])
    ensures VenueCards(venues, Select(shows + [s], Not(StartsAfter(now)))) ==
      VenueCards(venues, Select(shows, Not(StartsAfter(now)))) + (if now < s.startTime then [] else [VenueCardFor(venues, s)])
  {
    var upcoming, past := Select(shows, StartsAfter(now)), Select(shows, Not(StartsAfter(now)));
    if now < s.startTime {
      assert Select(shows + [s], StartsAfter(now)) == upcoming + [s] by {
        assert Holds(StartsAfter(now), s);
        SelectSnoc(shows, s, StartsAfter(now));
      }
      assert Select(shows + [s], Not(StartsAfter(now))) == past by {
        assert !Holds(Not(StartsAfter(now)), s);
        SelectSnoc(shows, s, Not(StartsAfter(now)));
      }
      VenueCardsSnoc(venues, upcoming, s);
    } else {
      assert Select(shows + [s], StartsAfter(now)) == upcoming by {
        assert !Holds(StartsAfter(now), s);
        SelectSnoc(shows, s, StartsAfter(now));
      }
      assert Select(shows + [s], Not(StartsAfter(now))) == past + [s] by {
        assert Holds(Not(StartsAfter(now)), s);
        SelectSnoc(shows, s, Not(StartsAfter(now)));
      }
      VenueCardsSnoc(venues, past, s);
    }
  }

  /** One more show gives one more card, at the end. */
  lemma VenueCardsSnoc(venues: seq<Venue>, shows: seq<Show>, s: Show)
    ensures VenueCards(venues, shows + [s]) == VenueCards(venues, shows) + [VenueCardFor(venues, s)]
  {
    var xs := shows + [s];
    var l, r := VenueCards(venues, xs), VenueCards(venues, shows) + [VenueCardFor(venues, s)];
    assert |l| == |r|;
    forall k | 0 <= k < |l| ensures l[k] == r[k] {
      if k < |shows| {
        assert xs[k] == shows[k];
      }
    }
  }

  /** The loop of `show_artist` over the artist's shows: each becomes a card
      naming its venue, split by the same rule. */
  method SplitVenueCards(venues: seq<Venue>, shows: seq<Show>, now: Timestamp)
    returns (past: seq<VenueCard>, upcoming: seq<VenueCard>)
    ensures upcoming == VenueCards(venues, Select(shows, StartsAfter(now)))
    ensures past == VenueCards(venues, Select(shows, Not(StartsAfter(now))))
  {
    var upcomingRule, pastRule := StartsAfter(now), Not(StartsAfter(now));
    past, upcoming := [], [];
    for i := 0 to |shows|
      invariant upcoming == VenueCards(venues, Select(shows[..i], upcomingRule))
      invariant past == VenueCards(venues, Select(shows[..i], pastRule))
    {
      var show := shows[i];
      var card := VenueCardFor(venues, show);
      assert shows[..i + 1] == shows[..i] + [show];
      VenueSplitStep(venues, shows[..i], show, now);
      if now < show.startTime {
        upcoming := upcoming + [card];
      } else {
        past := past + [card];
      }
    }
    assert shows[..|shows|] == shows;
  }

  /** `show_venue`: nothing for an unknown venue (404); otherwise the
      venue's JSON and its shows as cards, those starting after `now` under
      upcoming and all the others, a show starting at `now` included, under
      past. The list lengths agree with the counts in the JSON. */
  method ShowVenue(db: Database, id: int, now: Timestamp) returns (page: Option<VenuePage>)
    requires db.Valid()
    ensures page.None? <==> !HasVenue(db.venues, id)
    ensures page.Some? ==>
      var shows := db.VenueShows(id);
      && ArtistsExist(db.artists, shows)
      && page.value.venue == VenueToJson(db.venues[VenueIndex(db.venues, id).value], shows, now)
      && page.value.upcomingShows == ArtistCards(db.artists, Select(shows, StartsAfter(now)))
      && page.value.pastShows == ArtistCards(db.artists, Select(shows, Not(StartsAfter(now))))
      && |page.value.upcomingShows| == page.value.venue.upcomingShowsCount
      && |page.value.pastShows| == page.value.venue.pastShowsCount + |Select(shows, StartsAt(now))|
  {
    var k := VenueIndex(db.venues, id);
    if k.None? {
      return None;
    }
    var shows := db.VenueShows(id);
    assert ArtistsExist(db.artists, shows);
    var past, upcoming := SplitArtistCards(db.artists, shows, now);
    NotAfterIsPastOrNow(shows, now);
    page := Some(VenuePage(VenueToJson(db.venues[k.value], shows, now), past, upcoming));
  }

  /** `show_artist`: nothing for an unknown artist (404); otherwise the
      artist's JSON and its shows as cards, split by the same rule. */
  method ShowArtist(db: Database, id: int, now: Timestamp) returns (page: Option<ArtistPage>)
    requires db.Valid()
    ensures page.None? <==> !HasArtist(db.artists, id)
    ensures page.Some? ==>
      var shows := db.ArtistShows(id);
      && VenuesExist(db.venues, shows)
      && page.value.artist == ArtistToJson(db.artists[ArtistIndex(db.artists, id).value], shows, now)
      && page.value.upcomingShows == VenueCards(db.venues, Select(shows, StartsAfter(now)))
      && page.value.pastShows == VenueCards(db.venues, Select(shows, Not(StartsAfter(now))))
      && |page.value.upcomingShows| == page.value.artist.upcomingShowsCount
      && |page.value.pastShows| == page.value.artist.pastShowsCount + |Select(shows, StartsAt(now))|
  {
    var k := ArtistIndex(db.artists, id);
    if k.None? {
      return None;
    }
    var shows := db.ArtistShows(id);
    assert VenuesExist(db.venues, shows);
    var past, upcoming := SplitVenueCards(db.venues, shows, now);
    NotAfterIsPastOrNow(shows, now);
    page := Some(ArtistPage(ArtistToJson(db.artists[k.value], shows, now), past, upcoming));
  }

  /** How a detail page splits a record's shows: each show goes to exactly
      one of the two lists, both lists keep the original order, the upcoming
      list has as many shows as the upcoming counter, and the past list has
      at least as many as the past counter, with equality exactly when no
      show starts at `now`. */
  lemma DetailSplit(shows: seq<Show>, now: Timestamp)
    ensures var upcoming := Select(shows, StartsAfter(now));
            var past := Select(shows, Not(StartsAfter(now)));
      && multiset(upcoming) + multiset(past) == multiset(shows)
      && IsSubsequence(upcoming, shows) && IsSubsequence(past, shows)
      && (forall s :: s in upcoming <==> s in shows && now < s.startTime)
      && (forall s :: s in past <==> s in shows && s.startTime <= now)
      && |upcoming| == UpcomingCount(shows, now)
      && |past| >= PastCount(shows, now)
      && (|past| == PastCount(shows, now) <==> forall s :: s in shows ==> s.startTime != now)
  {
    SelectPartition(shows, StartsAfter(now));
    SelectKeepsOrder(shows, StartsAfter(now));
    SelectKeepsOrder(shows, Not(StartsAfter(now)));
    NotAfterIsPastOrNow(shows, now);
    var atNow := Select(shows, StartsAt(now));
    if forall s :: s in shows ==> s.startTime != now {
      SelectNoneHolds(shows, StartsAt(now));
    } else {
      var s :| s in shows && s.startTime == now;
      assert s in atNow;
    }
  }
}
