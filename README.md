# care-io: a Dafny model of the booking site's core

care-io is a Next.js site for booking care services (elderly care, home
care, pet care and so on). This project models the parts of it that decide
something:

- **Registration page.** The live password indicators, `validateNID`,
  `validatePassword`, and the order of checks in the submit handler. The
  handler checks the NID, then password strength, then that the passwords
  match, then the phone number. The first failure is shown and nothing is
  sent.
- **Phone and NID patterns.** The regular expressions are written as data,
  as they appear in the code, and the set of strings each accepts is worked
  out.
  - The submit handler's phone regex `^(?:\+88|01[3-9])[0-9]{8}$` accepts
    "+88" followed by only eight digits.
  - It rejects "+8801712345678", the international example quoted in its
    own error message.
  - The `pattern` attribute of the same input accepts that example.
  - A contact that passes both checks is exactly a local "01[3-9]" number
    of 11 digits.
- **Profile update handler.** `PUT /api/user/profile`: the session check,
  the validation of name and phone, and the update document it builds.
- **My Bookings page.** The filter-then-sort chain, the optimistic cancel,
  the status tallies and the badge colour.
- **Profile page.** The profile it loads, with the fallback built from the
  session when the request fails; the booking statistics; and the handlers
  for the profile and password forms.
- **`Booking` schema.** Required fields, enums, minimums and defaults.
- **`User` schema.** The `trim` and `lowercase` setters, defaults,
  conditionally required fields, and the pre-save hook. The hook re-hashes
  the password only when it was modified.
- **Hero slider.** The `current` index with next, previous, go-to and
  autoplay; the visible background image; and the category label.
- **Request middleware.** The login redirect for the booking pages.

Modules:

- `Wrappers`, `Fetch` (wrappers.dfy): `Option`, `||` on optional strings,
  Mongoose's `required` test, and the outcomes of a `fetch`: an ok answer
  with its body, an error answer with an optional message, or a thrown
  error.
- `Text`: JavaScript's `trim`, `toLowerCase`, `startsWith` and `length`
  (which counts UTF-16 code units).
- `Regex`: a small regular-expression language with whole-string matching
  (`^...$`) and substring search (`.test` without anchors).
- `Patterns`: the NID, phone, and upper- and lower-case patterns.
- One module per source file: `Register`, `ProfileRoute`, `MyBookings`,
  `ProfilePage`, `BookingModel`, `UserModel`, `HeroSlider`, `Middleware`.

How React state is modelled:

- **State changed in place is a class.** The profile page's hooks are the
  fields of `ProfilePage.ProfilePage`. The slider's index is a field of
  `HeroSlider.Slider`. A user document as the pre-save hook sees it is
  `UserModel.UserRecord`. Their methods are the handlers; each names the
  fields it may change and states their new values.
- **Pure computations are functions.** This covers the registration page,
  the filter and sort chain, the schema rules and the middleware.
- **Server answers, the confirmation dialog, the clock and the salt are
  parameters.**

## Model

| member | source | states |
|---|---|---|
| Wrappers.OrElse | src/app/profile/page.jsx:72-73 | `s \|\| fallback` on an optional string, as used for session fields and server messages: an absent or empty string gives the fallback, any other is kept |
| Wrappers.RequiredString | src/models/Booking.js:29-46 | Mongoose's `required` on a string fails exactly where `\|\|` would fall back: an absent or empty string |
| Text.Trim | src/app/api/user/profile/route.js:67 | the trimmed string is empty exactly when the input is all whitespace; otherwise its first and last characters are not whitespace |
| Text.TrimIsInnerSlice | src/app/api/user/profile/route.js:76 | `trim` returns a slice of the input with only whitespace removed on both sides |
| Text.TrimIdempotent | src/models/User.js:6 | trimming a trimmed value changes nothing |
| Text.ToLower | src/app/my-bookings/page.jsx:124 | `toLowerCase` keeps the length, leaves no upper-case letter and changes nothing else |
| Text.ToLowerIdempotent | src/app/my-bookings/page.jsx:79 | lower-casing twice is lower-casing once |
| Text.TrimToLowerCommute | src/models/User.js:7-13 | the `lowercase` and `trim` setters commute, so their order on the email path does not matter |
| Text.StartsWith | src/middleware.js:6-7 | `startsWith` holds exactly when the string is the prefix followed by some rest |
| Text.JsLength | src/app/register/page.jsx:56 | `length` counts UTF-16 code units; the total lies between the number of characters and twice it |
| Text.JsLengthBmp | src/app/register/page.jsx:56 | `length` equals the number of characters exactly when no character lies above U+FFFF |
| Patterns.DigitRun | src/app/register/page.jsx:50 | `\d{n}` matches exactly the strings of n ASCII digits |
| Patterns.NidPatternAccepts | src/app/register/page.jsx:50 | the NID regex accepts exactly the all-digit strings of length 10, 13 or 17 |
| Patterns.PhonePatternAccepts | src/app/register/page.jsx:89 | the phone regex accepts exactly "+88" and 8 digits, or "01", a digit 3-9 and 8 digits |
| Patterns.PhoneLength | src/app/api/user/profile/route.js:80 | every contact the phone regex accepts is 11 characters long |
| Patterns.HtmlPhonePatternAccepts | src/app/register/page.jsx:224 | the input's `pattern` accepts a local mobile number, optionally preceded by "+88" |
| Patterns.BothPhoneChecks | src/app/register/page.jsx:88-94 | a contact passes both the `pattern` attribute and the submit regex exactly when it is a local mobile number |
| Patterns.LocalExampleAccepted | src/app/register/page.jsx:91 | the local example in the error message passes the regex |
| Patterns.InternationalExampleRejected | src/app/register/page.jsx:89-91 | the international example in the error message fails the regex it describes |
| Patterns.InternationalExampleFitsHtml | src/app/register/page.jsx:224 | the `pattern` attribute accepts that international example |
| Patterns.ShortInternationalAccepted | src/app/register/page.jsx:89 | "+88" and eight digits passes the regex but not the `pattern` attribute |
| Register.ValidateNID | src/app/register/page.jsx:48-52 | `validateNID` holds exactly for all-digit strings of length 10, 13 or 17 |
| Register.ValidatePassword | src/app/register/page.jsx:54-60 | `validatePassword` holds exactly for at least 6 UTF-16 code units with an upper-case and a lower-case ASCII letter |
| Register.AstralPasswordAccepted | src/app/register/page.jsx:56 | "Aa" followed by two emoji is six code units long and is accepted |
| Register.PasswordChecksFor | src/app/register/page.jsx:37-43 | each indicator is lit exactly when its own requirement of `validatePassword` holds |
| Register.HandleChange | src/app/register/page.jsx:29-46 | the named field takes the value and the other fields keep theirs (an unknown name changes no field); the indicators are recomputed for the password field only; the error is cleared |
| Register.IndicatorsAgreeWithValidation | src/app/register/page.jsx:37-43 | all three indicators are lit exactly when `validatePassword` accepts the password |
| Register.Submit | src/app/register/page.jsx:67-108 | each error is reported exactly when the earlier checks pass and its own fails; a request is built exactly when all pass, and its body holds the five form fields without the confirmation |
| Register.SentRequestIsWellFormed | src/app/register/page.jsx:67-108 | any request sent carries a 10/13/17-digit NID, a password of at least 6 code units with both letter cases, and an 11-character contact |
| Register.HandleSubmit | src/app/register/page.jsx:62-124 | a rejected form sends nothing; navigation to the login page happens exactly when a sent request succeeds; an error answer shows its `message` or else the generic failure text; a network failure shows the network message |
| ProfileRoute.Put | src/app/api/user/profile/route.js:53-111 | 401 without a session, then 400 for a name under 2 UTF-16 code units once trimmed, then 400 for an invalid non-blank contact; an update is issued exactly when all pass; it holds the trimmed name and, exactly when the contact is non-blank, the trimmed 11-character contact; 200 or 404 by whether the user was found |
| ProfileRoute.AstralNameAccepted | src/app/api/user/profile/route.js:67 | a single emoji is two code units long and passes the name check |
| MyBookings.Kept | src/app/my-bookings/page.jsx:122-125 | "all" keeps every booking; any other filter keeps only bookings with a status of its length, and only when the filter is itself lower-case |
| MyBookings.FilterBookings | src/app/my-bookings/page.jsx:121-125 | each booking is kept with its multiplicity exactly when "all" is selected or its lower-cased status equals the filter |
| MyBookings.FilterAppend | src/app/my-bookings/page.jsx:121-125 | filtering a concatenation is concatenating the filtered parts, so the kept bookings stay in their order |
| MyBookings.FilterSingle | src/app/my-bookings/page.jsx:122-125 | a single booking is kept or dropped by the callback alone |
| MyBookings.FilterAllKeepsEverything | src/app/my-bookings/page.jsx:123 | the "all" filter returns the list unchanged |
| MyBookings.Compare | src/app/my-bookings/page.jsx:126-139 | each case of the comparator is the difference of the two bookings' `SortKey`s (date or cost, negated for "newest" and "priceHigh", 0 by default), so sorting by it is sorting by the key |
| MyBookings.Insert | src/app/my-bookings/page.jsx:126-139 | insertion adds exactly the one element |
| MyBookings.InsertSorted | src/app/my-bookings/page.jsx:126-139 | insertion into a list sorted by the comparator keeps it sorted |
| MyBookings.SortBookings | src/app/my-bookings/page.jsx:126-139 | the sorted list is a permutation of the input and ordered by the comparator |
| MyBookings.InsertWithKey | src/app/my-bookings/page.jsx:126-139 | an inserted booking comes first among the bookings of its key, and the bookings of every other key are untouched |
| MyBookings.SortIsStable | src/app/my-bookings/page.jsx:126-139 | the sort is stable: for every key, the bookings with that key come out in their input order |
| MyBookings.Displayed | src/app/my-bookings/page.jsx:121-139 | the rendered list is a permutation of the filtered bookings, in the comparator's order, and every booking in it passes the filter |
| MyBookings.DisplayedIsFilteredPermutation | src/app/my-bookings/page.jsx:121-139 | the displayed list is a permutation of the filtered one and holds a booking exactly when the list holds it and the filter keeps it |
| MyBookings.PriceOrders | src/app/my-bookings/page.jsx:132-135 | "priceHigh" shows non-increasing and "priceLow" non-decreasing costs, a missing cost counting as 0 |
| MyBookings.DateOrders | src/app/my-bookings/page.jsx:128-131 | "newest" shows non-increasing and "oldest" non-decreasing `createdAt \|\| bookingDate` |
| MyBookings.UnorderedKeepsList | src/app/my-bookings/page.jsx:136-137 | a comparator that returns 0 leaves the list as it is (stable sort) |
| MyBookings.UnknownOrderKeepsList | src/app/my-bookings/page.jsx:126-139 | an unknown sort order shows the filtered list in its original order |
| MyBookings.MarkCancelled | src/app/my-bookings/page.jsx:64-68 | exactly the bookings with the id get status "Cancelled"; the others and the length are unchanged |
| MyBookings.Cancel | src/app/my-bookings/page.jsx:53-76 | a request is sent exactly when confirmed; only a successful answer changes the list; an error answer alerts "Failed to cancel booking" and a thrown request "Error cancelling booking" |
| MyBookings.CountWithStatus | src/app/my-bookings/page.jsx:198-210 | a status tally never exceeds the number of bookings, and is zero exactly when no booking has one of the statuses |
| MyBookings.CountAppend | src/app/my-bookings/page.jsx:198-210 | `filter(...).length` works booking by booking: the count of a concatenation is the sum of the counts of its parts |
| MyBookings.CountSingle | src/app/my-bookings/page.jsx:198-210 | a single booking counts 1 exactly when its status is one of those counted |
| MyBookings.PendingTally | src/app/my-bookings/page.jsx:198 | the "Pending" tally is zero exactly when no booking is pending |
| MyBookings.ConfirmedTally | src/app/my-bookings/page.jsx:204 | the "Confirmed" tally counts confirmed and completed bookings alike |
| MyBookings.CancelledTally | src/app/my-bookings/page.jsx:210 | the "Cancelled" tally is zero exactly when no booking is cancelled |
| MyBookings.CountDisjointUnion | src/app/my-bookings/page.jsx:204 | tallies of disjoint status sets add up to the tally of their union |
| MyBookings.TalliesBounded | src/app/my-bookings/page.jsx:192-210 | pending, confirmed-or-completed and cancelled tallies together never exceed the total shown |
| MyBookings.CancelTallies | src/app/my-bookings/page.jsx:64-68 | a successful cancel keeps the total, never lowers the cancelled tally, and makes it at least 1 when the id is present |
| MyBookings.CancelledShowsUnderFilter | src/app/my-bookings/page.jsx:64-68 | a booking just cancelled shows under the "cancelled" filter |
| MyBookings.StatusColor | src/app/my-bookings/page.jsx:78-91 | the grey default exactly for a missing or unknown status; the four schema statuses get their own colours |
| MyBookings.StatusColorIgnoresCase | src/app/my-bookings/page.jsx:79 | the colour depends on the status only up to letter case |
| ProfilePage.FallbackUser | src/app/profile/page.jsx:69-79 | the fallback user keeps the session's name and email and takes each default field from the session when it is set |
| ProfilePage.FallbackDefaults | src/app/profile/page.jsx:69-79 | a bare session gives "Not set", role "user", no verification and the current time |
| ProfilePage.BookingStats | src/app/profile/page.jsx:89-92 | the total is the number of bookings; "completed" is the number of "Completed" bookings, part of the My Bookings page's confirmed tally; "upcoming" equals its pending tally |
| ProfilePage.StatsBounded | src/app/profile/page.jsx:89-92 | completed and upcoming counts together never exceed the total |
| ProfilePage.ProfilePage.constructor | src/app/profile/page.jsx:30-46 | the initial hook values |
| ProfilePage.ProfilePage.FetchUserProfile | src/app/profile/page.jsx:59-110 | stores the loaded or fallback user with the statistics of the loaded (or no) bookings, and fills the form; a thrown request stores nothing; loading ends always |
| ProfilePage.ProfilePage.HandleProfileChange | src/app/profile/page.jsx:112-115 | one field of the profile form takes the value |
| ProfilePage.ProfilePage.HandlePasswordChange | src/app/profile/page.jsx:117-120 | one field of the password form takes the value |
| ProfilePage.ProfilePage.HandleProfileSubmit | src/app/profile/page.jsx:122-149 | sends the form; on success only name and contact of the shown user change and edit mode ends; on failure the user is unchanged and the message says why |
| ProfilePage.ProfilePage.HandlePasswordSubmit | src/app/profile/page.jsx:151-189 | a request is sent exactly when the new passwords match and are at least 6 UTF-16 code units long; the mismatch is reported before the length; success clears the three fields; failures show the server's message or the network message |
| BookingModel.ApplyDefaults | src/models/Booking.js:20-70 | defaults fill only absent fields (duration type "hours", status and payment status "Pending", booking date now) and nothing else changes |
| BookingModel.ValidationErrors | src/models/Booking.js:17-69 | a duration under 1, a negative cost, and a status or payment status outside its enum are each reported under their own path |
| BookingModel.ValidIff | src/models/Booking.js:3-84 | a booking is valid exactly when the required fields are present and non-empty, the duration is at least 1, the cost is not negative and the enums hold |
| BookingModel.DefaultsAreValid | src/models/Booking.js:20-70 | the defaults pass their own enums |
| BookingModel.DefaultsIdempotent | src/models/Booking.js:20-70 | filling defaults twice is filling them once |
| BookingModel.MissingAreaReported | src/models/Booking.js:39-42 | a missing location field is reported under its own path |
| UserModel.EmailNormalized | src/models/User.js:7-13 | the stored email has no upper-case letter and nothing left to trim |
| UserModel.Normalize | src/models/User.js:6-42 | casting stores name, NID and contact trimmed and the email trimmed and lower-cased, keeps password and Google id, keeps every value already set and fills each absent defaulted field with its default: role "user", status "active", each verification flag false |
| UserModel.NormalizeIdempotent | src/models/User.js:6-42 | casting a cast document changes nothing |
| UserModel.ValidationErrors | src/models/User.js:6-42 | a missing or empty name or email, and a role or status outside its enum, are each reported under their own path; a Google account is never asked for a password or an NID; an absent role or status is never an enum error |
| UserModel.ValidIff | src/models/User.js:6-42 | a user is valid exactly when name and email are non-empty, an account without a Google id has a password and an NID, and a set role or status is from its enum |
| UserModel.PasswordRequiredWithoutGoogle | src/models/User.js:14-19 | the password is reported missing exactly for accounts without a Google id that lack it |
| UserModel.NidRequiredWithoutGoogle | src/models/User.js:20-26 | the NID is reported missing exactly for accounts without a Google id whose NID is absent or blank |
| UserModel.BlankNameRejected | src/models/User.js:6 | an all-whitespace name is trimmed to "" and fails `required` |
| UserModel.DefaultsHold | src/models/User.js:30-42 | a role or status filled by its default is never reported by validation |
| UserModel.UserRecord.constructor | src/models/User.js:14-19 | a new document's password counts as modified |
| UserModel.UserRecord.SetPassword | src/models/User.js:51-52 | assigning a password stores it and marks it modified exactly when it was already modified or the value differs |
| UserModel.UserRecord.PreSave | src/models/User.js:51-56 | an unmodified password is left alone; a modified one is replaced by its hash; hashing an absent one fails |
| UserModel.UserRecord.Save | src/models/User.js:51-56 | a document that fails validation is not saved and nothing changes; otherwise a save hashes exactly a modified password and then leaves nothing modified, and a modified but absent password fails the save and stays modified and absent |
| UserModel.SaveTwiceHashesOnce | src/models/User.js:51-56 | saving twice stores the hash of the password under the first salt: it is never hashed twice |
| UserModel.ReassignKeepsHash | src/models/User.js:51-56 | assigning the stored hash back to a saved user and saving again keeps that hash |
| HeroSlider.Next | src/components/HeroSlider.jsx:108-110 | from a slide index, next moves one slide on and wraps the last slide to 0 |
| HeroSlider.Prev | src/components/HeroSlider.jsx:112-114 | from a slide index, previous moves one slide back and wraps 0 to the last slide |
| HeroSlider.PrevUndoesNext | src/components/HeroSlider.jsx:108-114 | previous undoes next and the other way round |
| HeroSlider.NextTimesWraps | src/components/HeroSlider.jsx:108-110 | up to one lap, k steps forward land k slides on, wrapping past the last once |
| HeroSlider.FullCycle | src/components/HeroSlider.jsx:108-110 | one step per slide returns to the start |
| HeroSlider.VisibleImages | src/components/HeroSlider.jsx:124-128 | image k is at full opacity exactly when k is `current % images.length` |
| HeroSlider.ExactlyOneVisible | src/components/HeroSlider.jsx:124-128 | exactly one background image is visible |
| HeroSlider.ReplaceFirst | src/components/HeroSlider.jsx:161 | `replace` with a string pattern changes only the first occurrence, or nothing when there is none |
| HeroSlider.CategoryLabel | src/components/HeroSlider.jsx:161 | the label has the category's length, turns its first dash into a space, changes no character other than a dash, and shows a dashless category as it is |
| HeroSlider.LabelReplacesOnlyFirstDash | src/components/HeroSlider.jsx:161 | the label turns the first dash into a space and keeps every character before and after it |
| HeroSlider.LabelExample | src/components/HeroSlider.jsx:161 | a category with two dashes keeps its second dash |
| HeroSlider.Slider.constructor | src/components/HeroSlider.jsx:71-73 | the slider starts on slide 0, playing |
| HeroSlider.Slider.NextSlide | src/components/HeroSlider.jsx:108-110 | only the index changes: it becomes `(current + 1) % slides.length` and stays in range; playing is unchanged |
| HeroSlider.Slider.PrevSlide | src/components/HeroSlider.jsx:112-114 | only the index changes: it becomes `(current - 1 + slides.length) % slides.length` and stays in range; playing is unchanged |
| HeroSlider.Slider.Tick | src/components/HeroSlider.jsx:98-106 | while playing, each autoplay tick advances like next |
| HeroSlider.Slider.TogglePlay | src/components/HeroSlider.jsx:231 | play/pause flips only the playing flag and keeps the slide |
| HeroSlider.Slider.GoToSlide | src/components/HeroSlider.jsx:116-118 | an indicator click changes only the index, to its slide; playing is unchanged |
| HeroSlider.Slider.VisibleImage | src/components/HeroSlider.jsx:128 | the visible image index is in range and marked visible |
| HeroSlider.Slider.Label | src/components/HeroSlider.jsx:161 | the current slide's label has its category's length, turns the category's first dash into a space and differs from it only where a dash became a space |
| Middleware.Route | src/middleware.js:4-11 | a redirect to "/login" happens exactly when there is no token and the path starts with "/booking" or "/my-bookings" |
| Middleware.TokenPassesEverywhere | src/middleware.js:6-11 | a request with a token is never redirected |
| Middleware.GuardedPaths | src/middleware.js:6-10 | the guard is a prefix test: "/booking/..." and "/my-bookings" are guarded; "/api/bookings" and "/profile" are not |

## Left out

- Network, database and framework calls are not modelled. This covers
  `fetch`, `connectDB`, `findByIdAndUpdate`, `NextResponse`, `getToken`,
  `getServerSession` and router navigation. Their results are inputs; their
  effects are outputs.
- The 500 "Internal server error" paths of the profile handler are not
  modelled. They arise from a request body that is not valid JSON and from
  exceptions in the database or session layer.
- The profile handler's GET method and the response body of a successful
  PUT are not modelled. That body echoes the stored user.
- bcrypt is not modelled: `genSalt` and `hash` are parameters. The same
  goes for `comparePassword` and the `joinedDate` virtual.
- Mongoose's type casting is not modelled: every field is a string, an
  integer, a boolean or absent. Also left out are the difference between
  `null` and `undefined`, the unique and sparse indexes, and the `timestamps`
  fields.
- The `Booking` fields without constraints are not modelled: start and end
  dates, payment id, caregiver, special instructions and emergency contact.
  Neither are the `User` fields without constraints: `image`, `lastLogin`,
  `resetPasswordToken` and `resetPasswordExpires`.
- No cost formula and no status transition table appear in the modelled
  code. The page marks any booking "Cancelled" on a successful DELETE,
  whatever its status, and the model does the same.
- Dates are not parsed: they are integer timestamps. `new Date(x)`, the
  subtraction of two dates and the date formatting are not modelled. A date
  string that parses to `NaN` is not modelled either.
- Number arithmetic is not modelled in floating point: costs and durations
  are integers.
- Text.ToLower: covers the letters A-Z only. The Unicode case mappings of
  `toLowerCase` are not modelled.
- The image loading effect and its loading flag are not modelled. Neither
  are the timer period and the clearing of the interval, the JSX rendering,
  `getStatusIcon`, `formatDate` and the password visibility toggle.
- ProfilePage.ProfilePage.HandleProfileSubmit: does not model the session
  refresh (`update`) after a successful save. That refresh only changes
  state outside the page.
- The `useEffect` that sends an unauthenticated visitor from the profile
  page to the login page is not modelled. Nor is the `Protected` wrapper on
  the bookings page.
- Fetching the bookings list on the My Bookings page is not modelled. Its
  result becomes the `bookings` input of the filter, sort and tallies.
- A JSON body whose `name` or `contact` is not a string is not modelled:
  both are optional strings.
- Strings are sequences of Unicode scalar values, so a lone surrogate, which
  a JavaScript string may hold, cannot be written. Lengths are counted as
  JavaScript does (`Text.JsLength`), and no other modelled operation depends
  on the UTF-16 encoding.
- Register.Submit, Register.HandleSubmit, ProfilePage.ProfilePage.HandleProfileSubmit
  and ProfilePage.ProfilePage.HandlePasswordSubmit are modelled as if the
  handler always runs. The browser's constraint validation, which blocks a
  submit before the handler is called, is not modelled. On the registration
  form it covers `required`, the NID and phone `pattern`s, `minLength="6"` on
  both passwords, `type="email"` and the required terms checkbox. On the
  profile page it covers `minLength="2"` on the name, the phone `pattern` and
  `minLength="6"` on the passwords. So, for example, a 7-digit NID never reaches
  the handler's NID message in the browser. Of these attributes only the phone
  `pattern` is modelled (`Patterns.BothPhoneChecks`).
- HeroSlider.Slider.GoToSlide: requires an index in range. Its only callers
  are the indicator buttons, which pass the index of a rendered slide.
