# fyyur booking site — a Dafny model

fyyur lists music venues and artists and the shows that bring them
together. This project models the two places where the site has logic of
its own:

- **`models.py`.** The three tables `Venue`, `Artist` and `Show`, the `shows`
  relationship of a venue or an artist with its cascade delete, the two show
  counters and `toJson`.
- **The request handlers of `app.py`.** They create, edit and delete records
  from a submitted form, list venues grouped by city and state, search by
  name, and build the detail page of a venue or an artist. That page splits
  the record's shows into past and upcoming.

The modules follow the program:

| file | module | models |
|---|---|---|
| `wrappers.dfy` | `Wrappers` | `Option`, for nullable columns and absent form fields |
| `models.dfy` | `Models` | records, show filters, the counters, `toJson` |
| `store.dfy` | `Store` | the database as `class Database`, updated in place: insert, overwrite, cascade delete |
| `forms.dfy` | `Forms` | the submitted form, `get` / `getlist`, checkboxes, the form-to-record mapping |
| `ilike.dfy` | `Ilike` | SQL `ILIKE` with `%`, `_` and backslash escapes |
| `handlers.dfy` | `Handlers` | create, edit and delete handlers |
| `views.dfy` | `Views` | the venue listing, the two searches, the two detail pages |

How the model represents the program:

- **Time.** Times are integers. The current time is a parameter `now`, read
  once per call.
- **Failed commits.** An exception raised by the database on commit is the
  parameter `commitFails`.
- **Nullable values.** A form field that was not sent is an `Option`, and so
  is every nullable text column. The nullable `genres`, `seeking_talent` and
  `seeking_venue` columns are a sequence and booleans: the handlers always
  write them, from `getlist` and the checkbox.

Behaviour of the source that the model keeps:

- **A show starting exactly at `now`.** The counters compare strictly, so
  they count it as neither past nor upcoming. The detail pages test
  `now < start_time` and put it under past. So on a detail page the past
  list can be longer than `past_shows_count`.
- **Checkboxes.** A seeking flag is on only when the first value sent under
  its key is exactly `"y"`. Editing overwrites every column from the form,
  so an edit without the checkbox turns the flag off.
- **A form without a name.** Both create handlers concatenate the submitted
  name into their notice, which raises when there is no name. The request
  then ends in a server error, although the row has already been committed
  when the commit succeeded.
- **Deleting a missing record.** The lookup's 404 is raised inside the
  `try`, so the response is `{'status': 'fail'}`, not a 404.
- **A failing commit on edit.** It is not caught. The request ends in a
  server error, and the change is discarded.
- **Search terms are not escaped.** `%` and `_` in a term act as wildcards,
  so a term finds exactly the names that contain it only when the term has
  neither.
- **Records without a name.** A NULL name never satisfies `ILIKE`, so such a
  record is never found, even by the empty term.
- **Missing city or state.** Comparing a column with `None` becomes
  `IS NULL`, so the (city, state) pairs compare NULL as equal to NULL:
  venues with the same pair, NULLs included, share an area.

## Model

| member | source | states |
|---|---|---|
| Models.NewVenue | models.py:10-26 | A venue row built from keyword data keeps the key and every supplied column; the seeking flag defaults to false when not supplied. |
| Models.NewArtist | models.py:78-93 | An artist row built from keyword data keeps the key and every supplied column; the seeking flag defaults to false when not supplied. |
| Models.Select | models.py:40-41 | Filtering a show list keeps exactly the shows that pass the filter and never lengthens the list. |
| Models.SelectKeepsOrder | models.py:40 | A filtered show list keeps the order of the original list. |
| Models.SelectPartition | app.py:177-190 | The shows passing a filter and those failing it together make up the original list exactly, as multisets. |
| Models.SelectIgnoresOrder | models.py:40-44 | Filtering two orderings of the same shows selects the same shows the same number of times. |
| Models.SelectAfterExcluding | app.py:237-239 | After the shows passing a filter are removed, selecting by that filter again yields nothing, which is why a deleted record has no shows left. |
| Models.PastShowsCount | models.py:36-44 | The loop counts exactly the shows that start strictly before `now`. |
| Models.UpcomingShowsCount | models.py:47-55 | The loop counts exactly the shows that start strictly after `now`. |
| Models.TimeTrichotomy | models.py:41 | Past, starting-at-`now` and upcoming shows together account for every show. |
| Models.CountsCoverShows | models.py:41 | Each count is between 0 and the number of shows; past plus upcoming is at most that number, with equality exactly when no show starts at `now`. |
| Models.CountsIgnoreOrder | models.py:40-55 | Neither count depends on the order of the show list. |
| Models.NotAfterIsPastOrNow | app.py:177-190 | The shows not starting after `now` are the past shows plus those starting exactly at `now`. |
| Models.VenueToJson | models.py:59-75 | The JSON of a venue gives back every stored column unchanged and reports exactly the two counts over its shows. |
| Models.ArtistToJson | models.py:125-140 | The JSON of an artist gives back every stored column unchanged and reports exactly the two counts over its shows. |
| Store.VenueIndex | models.py:13 | The lookup by key finds a venue with that key exactly when one exists. |
| Store.ArtistIndex | models.py:81 | The lookup by key finds an artist with that key exactly when one exists. |
| Store.RemoveVenueAt | models.py:13 | Removing one venue from a table with unique keys leaves exactly the venues with other keys, keys still unique. |
| Store.RemoveArtistAt | models.py:81 | Removing one artist from a table with unique keys leaves exactly the artists with other keys, keys still unique. |
| Store.SelectKeepsUniqueIds | models.py:145 | A filtered show table still has unique keys. |
| Store.InsertVenueConsistent | models.py:13-29 | Appending a venue under the next key keeps every key distinct and every show's references valid, and no existing venue or show uses that key. |
| Store.InsertArtistConsistent | models.py:81-96 | Appending an artist under the next key keeps the tables consistent, and no existing artist or show uses that key. |
| Store.InsertShowConsistent | models.py:145-147 | Appending a show under the next key that names an existing venue and artist keeps the tables consistent. |
| Store.ReplaceVenueConsistent | app.py:209-221 | Overwriting a venue row under its own key keeps the tables consistent. |
| Store.ReplaceArtistConsistent | app.py:382-393 | Overwriting an artist row under its own key keeps the tables consistent. |
| Store.DeleteVenueConsistent | models.py:29 | Removing a venue with its shows keeps the tables consistent, and no remaining show names the removed venue. |
| Store.DeleteArtistConsistent | models.py:96 | Removing an artist with its shows keeps the tables consistent, and no remaining show names the removed artist. |
| Store.Database.VenueShows | models.py:29 | A venue's `shows` are exactly the shows naming that venue. |
| Store.Database.ArtistShows | models.py:96 | An artist's `shows` are exactly the shows naming that artist. |
| Store.Database.InsertVenue | app.py:93-95 | Inserting a venue appends the row built from the data under the next key, which it then advances; the venue has no shows, and the store stays consistent. |
| Store.Database.InsertArtist | app.py:288-290 | Inserting an artist appends the row built from the data under the next key, which it then advances; the artist has no shows, and the store stays consistent. |
| Store.Database.InsertShow | models.py:142-148 | Inserting a show whose venue and artist exist appends it under the next key, which it then advances, and keeps the store consistent. |
| Store.Database.ReplaceVenue | app.py:209-221 | Assigning every column of a venue overwrites exactly its row, in place, under the same key, and keeps the store consistent. |
| Store.Database.ReplaceArtist | app.py:382-393 | Assigning every column of an artist overwrites exactly its row, in place, under the same key, and keeps the store consistent. |
| Store.Database.DeleteVenue | models.py:29 | Deleting a venue removes exactly that venue and, by the cascade, exactly its shows; no remaining show names it. |
| Store.Database.DeleteArtist | models.py:96 | Deleting an artist removes exactly that artist and, by the cascade, exactly its shows; no remaining show names it. |
| Forms.GetList | app.py:84 | `getlist` returns every value sent under the key, and only those. |
| Forms.GetListOfOneField | app.py:84 | A single field contributes its value exactly when it has the key. |
| Forms.GetListConcat | app.py:84 | The values of a form in two parts are those of the first part followed by those of the second, so `getlist` keeps the order and the repeats of what was sent. |
| Forms.Get | app.py:79 | `get` returns the value of the first field sent under the key, or nothing exactly when the key was not sent. |
| Forms.GetIsHeadOfGetList | app.py:79-84 | `get` returns the first of the values `getlist` returns. |
| Forms.CheckboxIsFirstValueY | app.py:88 | A checkbox is on exactly when the first value sent under its key is `"y"`, and off when the key is absent. |
| Forms.VenueFromForm | app.py:78-89 | The venue row a form produces holds the first value of each field, all the genres, and the seeking flag from its checkbox. |
| Forms.ArtistFromForm | app.py:274-284 | The artist row a form produces holds the first value of each field, all the genres, and the seeking flag from its checkbox. |
| Ilike.PercentMatchesAll | app.py:143 | `%` matches every string. |
| Ilike.SearchIsSubstringMatch | app.py:143 | For a term without `%`, `_` or backslash, `name ILIKE '%term%'` holds exactly when the name contains the term, ignoring case. |
| Ilike.EmptyTermMatchesAll | app.py:142-143 | The empty term matches every name. |
| Ilike.UnderscoreInTermIsWildcard | app.py:317 | An unescaped `_` in a term matches any character, so a name can be found that does not contain the term. |
| Handlers.CreateVenue | app.py:76-106 | A venue is stored from the form exactly when the commit succeeds, under the next venue key, which then advances; the outcome is a server error without a name, else listed or not listed by the commit. |
| Handlers.CreateArtist | app.py:272-301 | An artist is stored from the form exactly when the commit succeeds, under the next artist key, which then advances; the outcome is a server error without a name, else listed or not listed by the commit. |
| Handlers.CreateShow | app.py:441-464 | A show is listed exactly when all three values are present, its venue and artist exist and the commit succeeds, under the next show key, which then advances; otherwise the store is unchanged. |
| Handlers.EditVenue | app.py:205-223 | An edit overwrites the venue's every column from the form, keeps its key and its shows, answers 404 for an unknown venue and a server error with nothing changed when the commit fails. |
| Handlers.EditArtist | app.py:378-395 | An edit overwrites the artist's every column from the form, keeps its key and its shows, answers 404 for an unknown artist and a server error with nothing changed when the commit fails. |
| Handlers.EditSetsSeekingFlagFromForm | app.py:218 | The seeking flag an edit stores is on exactly when the first field sent under its key is `"y"`, so a form without the checkbox turns it off. |
| Handlers.DeleteVenue | app.py:229-254 | The status is fail exactly when the venue is missing or the commit fails, with the store unchanged; on success the venue is cut out of the table with the other venues kept in order, and all its shows are gone. |
| Handlers.DeleteArtist | app.py:401-426 | The status is fail exactly when the artist is missing or the commit fails, with the store unchanged; on success the artist is cut out of the table with the other artists kept in order, and all its shows are gone. |
| Views.AreaKeys | app.py:116 | The areas are distinct, and they are exactly the (city, state) pairs some venue has. |
| Views.VenuesIn | app.py:125 | The venues of an area are exactly those with its city and state. |
| Views.VenuesInConcat | app.py:125 | The venues of an area taken from two tables placed end to end are those of the first followed by those of the second. With `VenuesInOfOne`, each member is listed once, in table order. |
| Views.VenuesInOfOne | app.py:125 | A table of one venue gives that venue exactly when its city and state are the area's. |
| Views.VenuesInMultiplicity | app.py:125 | A venue of the area appears in its list as often as in the table, and any other venue never. |
| Views.ListVenues | app.py:114-137 | The listing's loops build, per area, the entries of its venues with their upcoming-show counts. |
| Views.AreaMembers | app.py:125-133 | Within an area, a venue is listed exactly when it has the area's city and state, every entry is a venue's, and the area is not empty. |
| Views.VenuesGroupedByArea | app.py:116-135 | The listing has one non-empty area per distinct (city, state) pair, and each venue appears in the area of its own city and state and in no other. |
| Views.VenuesMatching | app.py:143 | The search finds exactly the venues whose name matches the pattern. |
| Views.VenuesMatchingConcat | app.py:143 | Searching two tables placed end to end finds the matches of the first followed by those of the second. With `VenuesMatchingOfOne`, each match is listed once, in table order. |
| Views.VenuesMatchingOfOne | app.py:143 | A table of one venue gives that venue exactly when its name matches. |
| Views.VenuesMatchingMultiplicity | app.py:143 | A matching venue is found as often as it occurs in the table, and any other venue never. |
| Views.ArtistsMatching | app.py:317 | The search finds exactly the artists whose name matches the pattern. |
| Views.ArtistsMatchingConcat | app.py:317 | Searching two tables placed end to end finds the matches of the first followed by those of the second. With `ArtistsMatchingOfOne`, each match is listed once, in table order. |
| Views.ArtistsMatchingOfOne | app.py:317 | A table of one artist gives that artist exactly when its name matches. |
| Views.ArtistsMatchingMultiplicity | app.py:317 | A matching artist is found as often as it occurs in the table, and any other artist never. |
| Views.SearchVenues | app.py:141-158 | The count equals the number of entries and the number of matching venues, and the entries are those of the matching venues with their upcoming-show counts. |
| Views.SearchArtists | app.py:315-332 | The count equals the number of entries and the number of matching artists, and the entries are those of the matching artists with their upcoming-show counts. |
| Views.VenueSearchFindsSubstrings | app.py:142-156 | For a plain term, every entry's name contains the term ignoring case and every such venue has an entry; the empty term finds every venue with a name. |
| Views.ArtistSearchFindsSubstrings | app.py:316-330 | For a plain term, every entry's name contains the term ignoring case and every such artist has an entry; the empty term finds every artist with a name. |
| Views.ArtistCardFor | app.py:173-183 | A card carries the show's artist key and start time, and, when the artist exists, that artist's name and image link. |
| Views.VenueCardFor | app.py:347-357 | A card carries the show's venue key and start time, and, when the venue exists, that venue's name and image link. |
| Views.SplitArtistCards | app.py:171-190 | The loop puts a card for each show starting after `now` under upcoming and one for every other show under past, in show order. |
| Views.SplitVenueCards | app.py:345-364 | The loop puts a card for each show starting after `now` under upcoming and one for every other show under past, in show order. |
| Views.ShowVenue | app.py:161-192 | An unknown venue gives 404; otherwise the page holds the venue's JSON and its shows split at `now`; upcoming is as long as the upcoming count, and past is as long as the past count plus the shows starting at `now`. |
| Views.ShowArtist | app.py:335-366 | An unknown artist gives 404; otherwise the page holds the artist's JSON and its shows split at `now`, with the same lengths. |
| Views.DetailSplit | app.py:171-190 | Each show lands in exactly one list, both lists keep show order, upcoming is as long as the upcoming count, and past is at least the past count, with equality exactly when no show starts at `now`. |

## Left out

- HTTP plumbing is not modelled: routing, `render_template`, `flash`, `redirect`, `jsonify`, the error handlers and the GET handlers that only render a form. The model returns the data a page is rendered with, and an `Outcome` or `Status` value for how the request ends.
- The session mechanics (`add`, `commit`, `rollback`, `close`) are not modelled step by step. A commit either succeeds, which applies the change, or fails, which leaves the store as it was.
- Failures of the database other than at commit are not modelled.
- `datetime.now()` is a parameter, and each handler reads it once. The source reads the clock more often: `show_venue` and `show_artist` read it again for every show, each counter call reads it once (twice within `toJson`), and `venues` and both searches read it once per record they list. A page built while the clock passes a show's start time is therefore not modelled.
- `format_datetime` and the `strftime` rendering of start times are not modelled, because they are locale and library formatting. Cards carry the start time itself.
- The listing of all artists and the listing of all shows are not modelled.
- `Show(**data)` turns the submitted strings into an integer or a datetime inside the ORM, whose code is not part of this model. `Handlers.CreateShow` takes the converted values as `Option`s, with `None` for a value that is missing or does not convert.
- Key sequences are not modelled: a failed insert may consume a key in the database, but the model hands out keys in order from a counter that advances only on success.
- `Ilike.Lower` folds case for the ASCII letters only, where PostgreSQL folds by locale.
- Queries without `ORDER BY` return rows in an order SQL leaves unspecified. The model fixes one order. `Views.AreaKeys` lists the `group_by` areas in order of first appearance. The `filter(...).all()` queries of the listing and the searches, and the `shows` relationship of a venue or an artist, return rows in table order.
- `delete_venue` and `delete_artist` take the key as a string from the URL. The model takes an integer, so a key that is not a number is not modelled; the source answers that with `fail` as well.
- Column widths are not modelled. The source declares `String(120)` for most text columns and `String(500)` for `image_link` and `seeking_description`. `Text` is unbounded, so the model stores a value as sent. PostgreSQL makes the commit fail for an over-long value; the model covers that only through the free `commitFails` parameter, which does not depend on the data. PostgreSQL also cuts, without an error, a value whose excess characters are all spaces; that truncation is not modelled.
- `genres`, `seeking_talent` and `seeking_venue` are never NULL in the model. Rows that predate these columns hold NULL, for which `toJson` gives `None` genres; such rows are not modelled.
- The schema migration, the browser script and the configuration file are not part of this model.
- Logging and the concurrency of the host server are not modelled.
