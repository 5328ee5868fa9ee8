/**
 * A submitted form as the request exposes it: the (key, value) pairs of the
 * body in the order they were sent, with any number of values per key.
 * `request.form.get` answers the first value of a key, `getlist` all of them.
 * Then the mapping from a venue or artist form to the columns of the record,
 * which the create and the edit handlers share.
 */
module Forms {
  import opened Wrappers
  import opened Models

  datatype Field = Field(key: string, value: string)

  type Form = seq<Field>

  /** `request.form.getlist(key)`: every value sent under `key`, in order. */
  function GetList(form: Form, key: string): (values: seq<string>)
    ensures |values| <= |form|
    ensures forall v :: v in values <==> Field(key, v) in form
  {
    if form == [] then []
    else (if form[0].key == key then [form[0].value] else []) + GetList(form[1..], key)
  }

  /** One field contributes its value when it has the key and nothing
      otherwise. */
  lemma GetListOfOneField(field: Field, key: string)
    ensures GetList([field], key) == if field.key == key then [field.value] else []
  {
    assert [field][1..] == [];
  }

  /** The values of a form sent in two parts are those of the first part
      followed by those of the second, repeats and order kept. */
  lemma {:induction false} GetListConcat(a: Form, b: Form, key: string)
    ensures GetList(a + b, key) == GetList(a, key) + GetList(b, key)
  {
    if a == [] {
      assert a + b == b;
    } else {
      var ab := a + b;
      assert ab[0] == a[0] && ab[1..] == a[1..] + b;
      GetListConcat(a[1..], b, key);
    }
  }

  /** Position `i` holds the first field sent under `key`. */
  predicate FirstAt(form: Form, key: string, i: int) {
    0 <= i < |form| && form[i].key == key && forall j :: 0 <= j < i ==> form[j].key != key
  }

  /** `request.form.get(key)`: the value of the first field sent under
      `key`, or `None` when the form has none. */
  function Get(form: Form, key: string): (r: Option<string>)
    ensures r.Some? ==> exists i :: FirstAt(form, key, i) && form[i].value == r.value
    ensures r.None? ==> forall i :: 0 <= i < |form| ==> form[i].key != key
  {
    if form == [] then None
    else if form[0].key == key then
      assert FirstAt(form, key, 0);
      Some(form[0].value)
    else
      var r := Get(form[1..], key);
      assert forall i :: 1 <= i < |form| ==> form[i] == form[1..][i - 1];
      assert r.Some? ==> exists i :: FirstAt(form, key, i) && form[i].value == r.value by {
        if r.Some? {
          var i :| FirstAt(form[1..], key, i) && form[1..][i].value == r.value;
          assert FirstAt(form, key, i + 1);
        }
      }
      r
  }

  /** `get` answers the head of what `getlist` answers. */
  lemma {:induction false} GetIsHeadOfGetList(form: Form, key: string)
    ensures Get(form, key) == if GetList(form, key) == [] then None else Some(GetList(form, key)[0])
  {
    if form != [] {
      GetIsHeadOfGetList(form[1..], key);
    }
  }

  /** A checkbox: `True if request.form.get(key) == 'y' else False`. */
  predicate Checkbox(form: Form, key: string) {
    Get(form, key) == Some("y")
  }

  /** A checkbox is on exactly when the first field sent under its key has
      the value "y"; it is off when the key is absent or its first value is
      anything else ("Y", "on", "true", ""). */
  lemma CheckboxIsFirstValueY(form: Form, key: string)
    ensures Checkbox(form, key) <==> exists i :: FirstAt(form, key, i) && form[i].value == "y"
    ensures (forall i :: 0 <= i < |form| ==> form[i].key != key) ==> !Checkbox(form, key)
  {
    if exists i :: FirstAt(form, key, i) && form[i].value == "y" {
      var i :| FirstAt(form, key, i) && form[i].value == "y";
      var r := Get(form, key);
      assert form[i].key == key;
      assert r.Some?;
      var k :| FirstAt(form, key, k) && form[k].value == r.value;
      assert form[k].key == key;
      assert k == i;
    }
  }

  /** The `data` dict of `create_venue_submission`, which is also what
      `edit_venue_submission` assigns field by field: every column read from
      the form, the genres as a list, the seeking flag from its checkbox. */
  function VenueFormData(form: Form): VenueData {
    VenueData(
      Get(form, "name"), Get(form, "city"), Get(form, "state"), Get(form, "address"),
      Get(form, "phone"), GetList(form, "genres"), Get(form, "image_link"),
      Get(form, "facebook_link"), Get(form, "website"),
      Some(Checkbox(form, "seeking_talent")), Get(form, "seeking_description"))
  }

  /** The `data` dict of `create_artist_submission`, which is also what
      `edit_artist_submission` assigns field by field. */
  function ArtistFormData(form: Form): ArtistData {
    ArtistData(
      Get(form, "name"), Get(form, "city"), Get(form, "state"), Get(form, "phone"),
      GetList(form, "genres"), Get(form, "image_link"), Get(form, "facebook_link"),
      Get(form, "website"), Some(Checkbox(form, "seeking_venue")),
      Get(form, "seeking_description"))
  }

  /** The venue row a form produces under the key `id` holds exactly what
      was submitted: the first value of each field, all the genres, and a
      seeking flag that is on only for the checkbox value "y" (so the
      column default never comes into play). */
  lemma VenueFromForm(id: int, form: Form)
    ensures var v := NewVenue(id, VenueFormData(form));
      && v.id == id && v.name == Get(form, "name") && v.city == Get(form, "city")
      && v.state == Get(form, "state") && v.address == Get(form, "address")
      && v.phone == Get(form, "phone") && v.genres == GetList(form, "genres")
      && v.imageLink == Get(form, "image_link") && v.facebookLink == Get(form, "facebook_link")
      && v.website == Get(form, "website")
      && v.seekingDescription == Get(form, "seeking_description")
      && (v.seekingTalent <==> Checkbox(form, "seeking_talent"))
  {
  }

  /** The artist row a form produces under the key `id` holds exactly what
      was submitted. */
  lemma ArtistFromForm(id: int, form: Form)
    ensures var a := NewArtist(id, ArtistFormData(form));
      && a.id == id && a.name == Get(form, "name") && a.city == Get(form, "city")
      && a.state == Get(form, "state") && a.phone == Get(form, "phone")
      && a.genres == GetList(form, "genres") && a.imageLink == Get(form, "image_link")
      && a.facebookLink == Get(form, "facebook_link") && a.website == Get(form, "website")
      && a.seekingDescription == Get(form, "seeking_description")
      && (a.seekingVenue <==> Checkbox(form, "seeking_venue"))
  {
  }
}
