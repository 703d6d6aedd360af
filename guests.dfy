/** The guests screen: the search over name, email and phone, the edit form
    a guest opens with and the save that writes the form. */
module Guests {
  import opened Common
  import opened Hotel

  /** A guest row; the email and address columns may be null. */
  datatype Guest = Guest(id: Id, fullName: string, email: Option<string>, phone: string,
                         address: Option<string>, createdAt: int)

  // -----------------------------------------------------------------------
  // List filter
  // -----------------------------------------------------------------------

  /** `guest.email?.toLowerCase().includes(...)`: a null email never matches. */
  predicate EmailMatches(email: Option<string>, search: string) {
    email.Some? && MatchesSearch(email.value, search)
  }

  predicate GuestListed(g: Guest, search: string) {
    MatchesSearch(g.fullName, search) || EmailMatches(g.email, search) || MatchesSearch(g.phone, search)
  }

  /** `filteredGuests`: the guests whose name, email or phone holds the
      search, ignoring case, in table order. */
  function FilteredGuests(guests: seq<Guest>, search: string): (r: seq<Guest>)
    ensures SubsequenceOf(r, guests)
    ensures forall k :: 0 <= k < |guests| ==>
      (guests[k] in r <==>
        Contains(Lower(guests[k].fullName), Lower(search)) ||
        (guests[k].email.Some? && Contains(Lower(guests[k].email.value), Lower(search))) ||
        Contains(Lower(guests[k].phone), Lower(search)))
  {
    Filter(guests, (g: Guest) => GuestListed(g, search))
  }

  /** An empty search box lists every guest, in order. */
  lemma {:induction false} EmptySearchListsAll(guests: seq<Guest>)
    ensures FilteredGuests(guests, "") == guests
  {
    forall k | 0 <= k < |guests|
      ensures GuestListed(guests[k], "")
    {
      EmptySearchMatches(guests[k].fullName);
    }
    FilterAll(guests, (g: Guest) => GuestListed(g, ""));
  }

  /** A guest without an email is listed exactly when the name or the phone
      matches: the missing email neither matches nor blocks a match. */
  lemma MissingEmail(g: Guest, search: string)
    requires g.email.None?
    ensures FilteredGuests([g], search) == (if MatchesSearch(g.fullName, search) || MatchesSearch(g.phone, search)
                                            then [g] else [])
  {
    var r := FilteredGuests([g], search);
    if MatchesSearch(g.fullName, search) || MatchesSearch(g.phone, search) {
      assert g in r;
    } else {
      assert g !in r;
    }
  }

  // -----------------------------------------------------------------------
  // Form and save
  // -----------------------------------------------------------------------

  /** The guest form; every box holds a string. */
  datatype GuestForm = GuestForm(fullName: string, email: string, phone: string, address: string)

  /** `x || ''`: a null or empty column shows as an empty box. */
  function OrEmpty(s: Option<string>): (r: string)
    ensures s.None? ==> r == ""
    ensures s.Some? ==> r == s.value
  {
    if s.Some? then s.value else ""
  }

  /** `openEditModal`: null email and address open as empty boxes; the other
      fields are copied. */
  function EditForm(g: Guest): (form: GuestForm)
    ensures form.fullName == g.fullName && form.phone == g.phone
    ensures form.email == (if g.email.None? then "" else g.email.value)
    ensures form.address == (if g.address.None? then "" else g.address.value)
  {
    GuestForm(g.fullName, OrEmpty(g.email), g.phone, OrEmpty(g.address))
  }

  /** A row after `.update(formData)`: every form field is written, so an
      email or address box left empty is stored as the empty string. */
  function ApplyForm(g: Guest, form: GuestForm): (r: Guest)
    ensures r.id == g.id && r.createdAt == g.createdAt
    ensures r.fullName == form.fullName && r.email == Some(form.email)
    ensures r.phone == form.phone && r.address == Some(form.address)
  {
    g.(fullName := form.fullName, email := Some(form.email), phone := form.phone, address := Some(form.address))
  }

  datatype SaveError = StoreError

  /** `handleSubmit` on the guests table: with a selected guest the rows with
      its id are updated, otherwise a row with the table's new id and time is
      inserted; `writeFails` is whether the store refuses the write. */
  function SaveGuest(table: seq<Guest>, selected: Option<Guest>, form: GuestForm, newId: Id, now: int,
                     writeFails: bool): (r: Result<seq<Guest>, SaveError>)
    ensures r.Failure? <==> writeFails
    ensures r.Success? && selected.Some? ==>
      |r.value| == |table| &&
      forall k :: 0 <= k < |table| ==>
        r.value[k] == if table[k].id == selected.value.id then ApplyForm(table[k], form) else table[k]
    ensures r.Success? && selected.None? ==>
      r.value == table + [Guest(newId, form.fullName, Some(form.email), form.phone, Some(form.address), now)]
  {
    if writeFails then Failure(StoreError)
    else
      match selected
      case Some(guest) =>
        Success(seq(|table|, k requires 0 <= k < |table| =>
          if table[k].id == guest.id then ApplyForm(table[k], form) else table[k]))
      case None =>
        Success(table + [Guest(newId, form.fullName, Some(form.email), form.phone, Some(form.address), now)])
  }

  /** Saving a guest's unchanged edit form keeps the guest findable by exactly
      the same searches, although a null email or address becomes "". */
  lemma EditKeepsListing(g: Guest, search: string)
    ensures GuestListed(ApplyForm(g, EditForm(g)), search) == GuestListed(g, search)
  {
    if g.email.None? && MatchesSearch("", search) {
      LowerEmptyOnlyMatchesEmpty(search);
      EmptySearchMatches(g.fullName);
    }
  }

  /** Only the empty search is found in an empty field. */
  lemma LowerEmptyOnlyMatchesEmpty(search: string)
    requires MatchesSearch("", search)
    ensures search == ""
  {
    assert Lower("") == "";
    var i :| OccursAt("", Lower(search), i);
  }

  /** A null email becomes the empty string once the unchanged edit form is
      saved: the row differs from the one read, although it lists the same. */
  lemma NullEmailBecomesEmpty(g: Guest)
    requires g.email.None?
    ensures ApplyForm(g, EditForm(g)).email == Some("")
    ensures ApplyForm(g, EditForm(g)) != g
  {
  }
}
