# Deal board model

A Dafny model of the client-side logic of a real-estate "off-market deal"
dashboard. The model covers:

- the seed listings;
- the filter the board applies to them: strategy selector, structure selector and a free-text search;
- the statistics it shows for the filtered list: hot count, average spread, average rent;
- which listing is active;
- the handlers that change the session: select a listing, sign in, reset the session, reset the filters;
- the hover "typing" teaser on the Arkhived link, which appears on both the landing page and the board;
- the landing page's hard-coded figures, checked against the seed data.

Modules:

- `Wrappers`: `Option`.
- `Text`: the string primitives the search and the sign-in check use:
  - `toLowerCase`, restricted to ASCII letters;
  - `trim`, with the ECMAScript white-space and line-terminator set;
  - `includes`.
- `Deals`:
  - the `Property` record and the eight seed listings;
  - `Array.prototype.filter` as `Where`, and the board's filter `Filtered`;
  - the statistics;
  - the active-id resolution and `find`.
- `SeedKeys`: which seed listings' search text holds "cleveland".
- `SeedFacts`: what the board shows for particular selector and search values on the seed listings.
- `Typing`: the teaser, as the class `Hook`. Its fields are:
  - the interval handle in `typingRef`;
  - the browser's set of running intervals;
  - the interval's counter `idx`;
  - the typed text and the `showHook` flag.
- `Board`: the board's session state as the class `Session`, with one method per handler.
- `HomeFigures`: the landing page's stat cards and featured deal.

A sign-in with a blank field sets `authError` to `"Enter your email and password to continue."` (src/app/page.tsx:274-276), and so does `Board.Session.Login`.

## Model

| member | source | states |
|---|---|---|
| Text.Lower | src/app/page.tsx:234-236 | the result has the input's length, and each character is the ASCII lower-case of the input's character at that position |
| Text.LowerAppend | src/app/page.tsx:234-236 | lower-casing a concatenation lower-cases each part |
| Text.LowerIdempotent | src/app/page.tsx:234-237 | lower-casing twice equals lower-casing once |
| Text.TrimStart | src/app/page.tsx:237 | the result is a suffix of the input; all the characters cut off are white space; it is empty exactly when the input is all white space; otherwise it starts with a non-space |
| Text.TrimEnd | src/app/page.tsx:237 | the result is a prefix of the input; all the characters cut off are white space; a non-empty result ends with a non-space |
| Text.Trim | src/app/page.tsx:237 | `trim`: trim the start, then the end; its meaning is stated by Text.TrimSpec and Text.TrimEmpty |
| Text.TrimSpec | src/app/page.tsx:237 | trim returns a slice of the input with only white space removed on both sides; it neither starts nor ends with white space; it is empty exactly when the input is all white space |
| Text.TrimEmpty | src/app/page.tsx:274 | trim leaves the empty string exactly when the input is all white space, which is the sign-in form's blank test |
| Text.TrimIgnoresPadding | src/app/page.tsx:237 | padding a string with white space on either side does not change its trim |
| Text.TrimUnpadded | src/app/page.tsx:237 | a string that neither starts nor ends with white space is its own trim |
| Text.Contains | src/app/page.tsx:234-237 | `includes`: false when the needle is longer than the text; Text.ContainsHasWitness and Text.ContainsAt state that it is true exactly when the needle occurs at some position |
| Text.ContainsHasWitness | src/app/page.tsx:234-237 | includes answers true only when the needle occurs at some position |
| Text.ContainsAt | src/app/page.tsx:234-237 | includes answers true whenever the needle occurs at some position |
| Text.ContainsEmpty | src/app/page.tsx:234-237 | the empty string is included in every string, so a blank query matches every property |
| Text.ContainsNeedsChar | src/app/page.tsx:234-237 | every character of an included needle occurs in the haystack |
| Text.MissingLetter | src/app/page.tsx:234-237 | a needle with a letter that is absent, in both cases, from the text is not included in the lower-cased text |
| Text.SplitLetters | src/app/page.tsx:234-237 | a needle is not included in the lower-cased text when, for some split point, an earlier letter of it is absent before the split and a later letter is absent after it |
| Deals.Where | src/app/page.tsx:229 | `Array.prototype.filter`: never longer than its input; Deals.WhereSoundComplete and Deals.WhereIsSubsequence state what it keeps |
| Deals.WhereSoundComplete | src/app/page.tsx:228-240 | every element filter keeps is in the input and passes the predicate, and every passing element is kept |
| Deals.WhereIsSubsequence | src/app/page.tsx:228-240 | the filtered list is an order-preserving subsequence of the input |
| Deals.WhereKeepsAll | src/app/page.tsx:228-240 | when every element passes, filter returns the input unchanged |
| Deals.WhereSelects | src/app/page.tsx:228-240 | given the exact increasing positions of the passing elements, the filtered list is the input at those positions, in order |
| Deals.WhereIdempotent | src/app/page.tsx:228-240 | filtering a filtered list again changes nothing |
| Deals.WhereAppend | src/app/page.tsx:228-240 | filtering a concatenation filters each part |
| Deals.Query | src/app/page.tsx:237 | `search.toLowerCase().trim()`; Deals.SearchIgnoresCaseAndPadding and Deals.BlankSearchExcludesNothing state its effect on the list |
| Deals.SearchKey | src/app/page.tsx:235-236 | the lower-cased text "address city state" a property is searched by; Deals.FilteredIsExactSelection states the search condition on it |
| Deals.Filtered | src/app/page.tsx:228-240 | `filteredProperties`: the listings passing strategy, structure and search; its meaning is stated by Deals.FilteredIsExactSelection |
| Deals.FilteredIsExactSelection | src/app/page.tsx:228-240 | the board's list is an order-preserving subsequence of the listings; each kept listing matches strategy, structure and search; each listing is kept exactly when it matches all three |
| Deals.FilteredIdempotent | src/app/page.tsx:228-240 | applying the same filter to the board's list again changes nothing |
| Deals.SearchIgnoresCaseAndPadding | src/app/page.tsx:234-237 | a search padded with white space on either side, in any letter case, lists the same properties as the lower-cased search |
| Deals.BlankSearchExcludesNothing | src/app/page.tsx:228-240 | with an empty or all-blank search, only the two selectors decide whether a property is listed |
| Deals.ResetFiltersShowAll | src/app/page.tsx:228-240 | with both selectors at "All" and an empty search, every listing is kept in order |
| Deals.HotCount | src/app/page.tsx:242 | the hot count is at most the list's length, and equals it exactly when every listed property is Hot |
| Deals.HotCountIsCount | src/app/page.tsx:242 | the length of the Hot filter is the number of Hot properties, counted one by one |
| Deals.AvgSpread | src/app/page.tsx:243-245 | the average spread is 0 for an empty list; otherwise it times the length is the sum of ARV minus price, because the divisor is max(length, 1) |
| Deals.SpreadSumBetween | src/app/page.tsx:243-245 | when every spread lies in [lo, hi], the spread total lies between length times lo and length times hi |
| Deals.AvgSpreadBetween | src/app/page.tsx:243-245 | when every spread lies in [lo, hi], the average spread of a non-empty list lies in [lo, hi] |
| Deals.Rentals | src/app/page.tsx:246-248 | the Standard Rental and Section 8 properties of the list; Deals.AvgRentOnlyRentals and SeedFacts.SeedRentals state what it selects |
| Deals.AvgRent | src/app/page.tsx:246-251 | the average rent is 0 when no listed property is a rental; otherwise it times the number of rentals is their total rent, with a missing rent counted as 0 |
| Deals.AvgRentOnlyRentals | src/app/page.tsx:246-251 | only Standard Rental and Section 8 properties affect the rent average |
| Deals.RentSumNonNegative | src/app/page.tsx:249-251 | with no negative rents, the rent total is not negative |
| Deals.AvgRentNonNegative | src/app/page.tsx:246-251 | with no negative rents, the rent average is not negative |
| Deals.HasId | src/app/page.tsx:255-256 | `some(p => p.id === id)` holds exactly when some listed property carries the id |
| Deals.ListedHasId | src/app/page.tsx:255-256 | a listed property's id is among the listed ids |
| Deals.ActiveId | src/app/page.tsx:253-261 | the active id is null exactly when the list is empty; otherwise it names a listed property; it is the selected id when that id is truthy and listed, and the first listed id otherwise |
| Deals.SelectionSticks | src/app/page.tsx:253-261 | after a listed property with a non-zero id is selected, that id is the active one |
| Deals.ZeroIdIsNoSelection | src/app/page.tsx:255-256 | a selected id of 0 resolves exactly as no selection does |
| Deals.FindById | src/app/page.tsx:263-264 | find returns a property exactly when the id is listed, and then the first listed property with that id |
| Deals.SelectedProperty | src/app/page.tsx:263-264 | `selectedProperty`: find by the active id, or null; its meaning is stated by Deals.FindById and Deals.SelectedMatchesActive |
| Deals.SelectedMatchesActive | src/app/page.tsx:253-264 | there is a selected property exactly when the list is non-empty, and it is a listed property carrying the active id |
| SeedFacts.SeedIds | src/app/page.tsx:31-164 | the eight seed listings carry the ids 1 to 8, in list order |
| SeedFacts.SeedRentals | src/app/page.tsx:31-164 | the seed rentals are the listings at positions 1, 5, 6 and 7 |
| SeedFacts.UnfilteredStatistics | src/app/page.tsx:242-245 | with the filters reset: 8 listings, 2 of them Hot, and an average spread of 797000 / 8 = 99625 |
| SeedFacts.UnfilteredRent | src/app/page.tsx:246-251 | with the filters reset: the rentals are ids 2, 6, 7 and 8, and their average rent is 9300 / 4 = 2325 |
| SeedFacts.WholesaleOnly | src/app/page.tsx:228-240 | strategy Wholesale, structure All and an empty search list ids 1 and 5 |
| SeedFacts.ClevelandInAnyCase | src/app/page.tsx:228-240 | "Cleveland", in any letter case and with any white-space padding, lists only id 6 |
| SeedKeys.ClevelandKeyMatches | src/app/page.tsx:234-237 | the Cleveland listing's lower-cased "address city state" text includes "cleveland" |
| SeedKeys.KeyMisses6 | src/app/page.tsx:234-237 | the Indianapolis listing's search text does not include any query with 'c' at position 0 and 'v' at position 3, such as "cleveland" |
| SeedFacts.ClevelandFiltered | src/app/page.tsx:228-240 | the search "cleveland" keeps exactly the Cleveland listing |
| Typing.HookTextLength | src/app/home/page.tsx:33-34 | the teaser text is 277 characters long |
| Typing.Prefix | src/app/home/page.tsx:50 | slice(0, n) is a prefix of the text, n characters long or the whole text when it is shorter |
| Typing.Hook.CursorVisible | src/app/home/page.tsx:138 | the cursor is shown only while the hook is shown |
| Typing.Hook.constructor | src/app/home/page.tsx:30-32 | the hook starts hidden and blank, with no interval |
| Typing.Hook.StopTyping | src/app/home/page.tsx:36-41 | clears the running interval, if there is one, and leaves nothing running; the text and visibility stay as they were |
| Typing.Hook.StartTyping | src/app/home/page.tsx:43-55 | stops any running interval, blanks the text, shows the hook and starts one new interval under a fresh handle with the counter at 0; afterwards exactly one interval runs and the cursor is visible |
| Typing.Hook.Tick | src/app/home/page.tsx:48-54 | advances the counter by one and shows exactly that many leading characters; the interval keeps running exactly while characters remain; visibility is unchanged |
| Typing.Hook.MouseLeave | src/app/home/page.tsx:120-124 | stops typing, blanks the text and hides the hook and its cursor |
| Typing.Hook.CursorWhileTyping | src/app/page.tsx:401 | in every state the handlers leave, the cursor blinks exactly while the interval runs |
| Typing.HoverTypes | src/app/page.tsx:302-314 | after the mouse enters, the interval firing n times (any n from 0 to the text length) shows the first n characters; it is still running exactly while characters remain |
| Board.Session.Authed | src/app/page.tsx:226 | `authed = isAuthed || forceAuthed`; Board.Session.Login and Board.Session.ResetSession state how it changes |
| Board.Session.FilteredProperties | src/app/page.tsx:228-240 | the session's list: Deals.Filtered over its listings with its selector and search values; Board.Session.ResetFilters states that a reset lists everything |
| Board.Session.Active | src/app/page.tsx:253-261 | the session's active id: Deals.ActiveId of its list and selection, whose contract states the resolution |
| Board.Session.Selected | src/app/page.tsx:263-264 | the session's selected property: Deals.SelectedProperty of its list and active id, stated by Deals.SelectedMatchesActive |
| Board.Session.constructor | src/app/page.tsx:187-214 | the board starts signed in only when forced by ?authed=1, unfiltered over the seed listings, with nothing selected and the camera at (39.5, -98.35), zoom 4 |
| Board.Session.SelectProperty | src/app/page.tsx:266-270 | selects the property's id and centres the map on it at zoom 8; sign-in state and filters are unchanged, and the typing state is outside its frame |
| Board.Session.Login | src/app/page.tsx:272-288 | a blank email or password (all white space, so trimming leaves nothing; see Text.TrimEmpty) sets the fixed error message and changes nothing else; otherwise the error is cleared, the user is signed in, and the first listing is selected and centred at zoom 6 |
| Board.Session.ResetSession | src/app/page.tsx:290-293 | signs out and clears the password but keeps the email; `authed` stays true only when forced by ?authed=1, which keeps the header and sidebar; the login form shows because `isAuthed` is false (page.tsx:441) |
| Board.Session.ResetFilters | src/app/page.tsx:708-712 | clears the search and sets both selectors to "All", so the board lists every listing in order; selection and camera are unchanged |
| HomeFigures.FiguresMatchSeed | src/app/home/page.tsx:7-19 | the landing page's 8 active deals, 2 hot deals and $99,625 average spread are the unfiltered board's figures; the featured deal is the first seed listing (title, city, state and structure Single Family, as on the card), with spread 305000 − 218000 = 87000 |

## Left out

- Rendering, layout, styling, links and the sidebar toggle are presentation only and have no state of interest. This includes `animateDash` with its 800 ms timeout, and `sidebarOpen`.
- The map: the map widget, its bounds-changed callback and the tile URL builder, whose key comes from the environment. `center` and `zoom` are kept only as the values the handlers assign.
- Currency formatting with `Intl.NumberFormat` is left out. Money is whole dollars, and the landing page's "$99,625" and similar strings are compared as numbers.
- JavaScript numbers are modelled as unbounded integers for money and exact reals for averages and coordinates. Floating-point rounding is not modelled.
- `toLowerCase` is modelled for ASCII letters only. The seed data and the queries in the seed checks are ASCII. Other Unicode case mappings are not modelled.
- The URL query parameter `authed` is read through `useSearchParams`, which is I/O. It becomes the constructor parameter `forceAuthed`.
- The timer period, 12 ms, is left out. A tick is one call of `Typing.Hook.Tick`, and the browser's timer queue is the `intervals` set. Each handler's state updates take effect together, as React batches them; re-render timing is not modelled.
- The input fields' change handlers, which assign the field, and `event.preventDefault()` are left out. The session's fields are assigned directly.
- The pricing page and the static copy (activity feed, testimonials) are left out. They hold no logic.
- Board.Session.SelectProperty: the fact that the selected property becomes the active one is stated in `Deals.SelectionSticks`. It is not restated in the method's postcondition.
- Board.Session.Login: likewise, `Deals.SelectionSticks` states that the first listing becomes active when it is listed.
