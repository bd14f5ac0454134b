/** The deal board's session: sign-in, the three filter controls, the selected
    listing and the map camera, with the handlers that change them. The list,
    statistics and active selection the board shows are functions of this
    state (module Deals). */
module Board {
  import opened Wrappers
  import Text
  import opened Deals
  import Typing

  /** The message a sign-in attempt with a blank field shows. */
  const MissingCredentials: string := "Enter your email and password to continue."

  /** The camera before anything is selected: the middle of the United States. */
  const InitialCenter: (real, real) := (39.5, -98.35)
  const InitialZoom: int := 4

  /** The sign-in form's test for a missing field: nothing but white space,
      which is when trimming leaves the empty string (Text.TrimEmpty). */
  predicate Blank(s: string) {
    Text.AllSpace(s)
  }

  class Session {
    /** The page was opened with ?authed=1. */
    const forceAuthed: bool
    /** The module-level `properties` list the board shows. */
    const listings: seq<Property>
    var isAuthed: bool
    var email: string
    var password: string
    var authError: string
    var strategyFilter: Choice<Strategy>
    var structureFilter: Choice<Structure>
    var search: string
    var selectedId: Option<int>
    var center: (real, real)
    var zoom: int
    /** The teaser on the board's own Arkhived link. */
    const hook: Typing.Hook

    /** The board starts signed out (unless forced), unfiltered, with nothing selected. */
    constructor(forceAuthed: bool)
      ensures this.forceAuthed == forceAuthed && isAuthed == forceAuthed && listings == Seed
      ensures email == "" && password == "" && authError == ""
      ensures strategyFilter == All && structureFilter == All && search == ""
      ensures selectedId == None && center == InitialCenter && zoom == InitialZoom
      ensures fresh(hook) && hook.Valid() && hook.Settled() && !hook.showHook
    {
      this.forceAuthed := forceAuthed;
      listings := Seed;
      isAuthed := forceAuthed;
      email := "";
      password := "";
      authError := "";
      strategyFilter := All;
      structureFilter := All;
      search := "";
      selectedId := None;
      center := InitialCenter;
      zoom := InitialZoom;
      hook := new Typing.Hook();
    }

    /** `authed`: the header and sidebar are shown. The login form or the
        dashboard below them depends on `isAuthed` alone. */
    predicate Authed()
      reads this
    {
      isAuthed || forceAuthed
    }

    /** filteredProperties */
    function FilteredProperties(): seq<Property>
      reads this
    {
      Filtered(listings, strategyFilter, structureFilter, search)
    }

    /** activePropertyId */
    function Active(): Option<int>
      reads this
    {
      ActiveId(FilteredProperties(), selectedId)
    }

    /** selectedProperty */
    function Selected(): Option<Property>
      reads this
    {
      SelectedProperty(FilteredProperties(), Active())
    }

    /** handleSelectProperty: select the listing and fly the map to it at zoom 8. */
    method SelectProperty(p: Property)
      modifies this
      ensures selectedId == Some(p.id) && center == (p.lat, p.lng) && zoom == 8
      ensures isAuthed == old(isAuthed) && email == old(email) && password == old(password)
      ensures authError == old(authError)
      ensures strategyFilter == old(strategyFilter) && structureFilter == old(structureFilter)
      ensures search == old(search)
    {
      selectedId := Some(p.id);
      center := (p.lat, p.lng);
      zoom := 8;
    }

    /** handleLogin: with a blank (after trimming) email or password only the
        error message changes; otherwise the error clears, the user is signed
        in and the first listing, if there is one, is selected, centred at zoom 6. */
    method Login()
      modifies this
      ensures email == old(email) && password == old(password)
      ensures strategyFilter == old(strategyFilter) && structureFilter == old(structureFilter)
      ensures search == old(search)
      ensures Blank(email) || Blank(password) ==>
                authError == MissingCredentials && isAuthed == old(isAuthed)
                && selectedId == old(selectedId) && center == old(center) && zoom == old(zoom)
      ensures !Blank(email) && !Blank(password) ==>
                authError == "" && isAuthed && Authed()
                && (listings == [] ==> selectedId == old(selectedId) && center == old(center) && zoom == old(zoom))
                && (listings != [] ==> selectedId == Some(listings[0].id) && center == (listings[0].lat, listings[0].lng)
                                       && zoom == 6)
    {
      if Blank(email) || Blank(password) {
        authError := MissingCredentials;
        return;
      }
      authError := "";
      isAuthed := true;
      if listings != [] {
        var first := listings[0];
        selectedId := Some(first.id);
        center := (first.lat, first.lng);
        zoom := 6;
      }
    }

    /** resetSession: sign out and forget the password; the email stays. A
        session forced by ?authed=1 keeps `authed`, so the header and sidebar
        stay while the login form replaces the dashboard. */
    method ResetSession()
      modifies this
      ensures !isAuthed && password == "" && email == old(email)
      ensures Authed() == forceAuthed
      ensures authError == old(authError) && selectedId == old(selectedId)
      ensures center == old(center) && zoom == old(zoom)
      ensures strategyFilter == old(strategyFilter) && structureFilter == old(structureFilter)
      ensures search == old(search)
    {
      isAuthed := false;
      password := "";
    }

    /** The Reset button: clear the search and set both selectors to "All",
        which lists every property in list order. */
    method ResetFilters()
      modifies this
      ensures search == "" && strategyFilter == All && structureFilter == All
      ensures FilteredProperties() == listings
      ensures selectedId == old(selectedId) && center == old(center) && zoom == old(zoom)
      ensures isAuthed == old(isAuthed) && email == old(email) && password == old(password)
      ensures authError == old(authError)
    {
      search := "";
      strategyFilter := All;
      structureFilter := All;
      ResetFiltersShowAll(listings);
    }
  }
}
