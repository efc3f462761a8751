# Hotel reservations: a verified model of the reservation domain

This project models the domain core of a small hotel-booking web application.
It covers four records: rooms with a nightly price and an optional promotion,
promotions with a dated percentage discount, guest profiles tied one-to-one to
login accounts, and reservations. It also covers the behaviour of the views
that read and write those tables:

- the pricing rule `Room.get_discounted_price`;
- the "active promotion" and "available room" filters used by the reservation
  form and the guest dashboard;
- the per-guest reservation list;
- booking a room;
- signing up, which saves an account and then its guest profile.

`Models.dfy` holds the records, the decimal column bounds and the pricing rule.
`Views.dfy` holds:

- the query filters and lookups, as functions over the tables;
- the invariants of the tables: unique keys, unique room numbers and promotion
  codes, unique guest email, phone and account, foreign keys that resolve
  (including a room's promotion), and decimals within their columns;
- a `Store` class whose fields are the tables. Its methods `CreateReservation`
  and `Signup` are the two inserting views; `SaveAccount` and `SaveGuest` are
  the two saves that `Signup` makes in turn.

Representation choices:

- Decimal columns are integers in their smallest unit: the price in cents, the
  percentage in hundredths of a percent.
- A discounted price is an integer in millionths. Python's decimal arithmetic
  on these operands is exact: at most 11 significant digits, under the default
  28-digit precision. The lemma `ScaledDiscountIsDecimal` proves that the
  integer computation equals `price - price * (pct / 100)` evaluated over the
  reals.
- Dates are day numbers; only their order matters.
- The acting account and "today" are explicit parameters.
- Record ids come from per-table counters, standing in for the database's
  auto-increment keys.

Behaviour that follows the code rather than a tidier design:

- `models.py:42-47` declares no uniqueness on (room, check-in date), and the
  view checks no date overlap and does not require check-out after check-in.
  So two bookings of the same room on the same date both succeed in the model.
- `signup` saves the account before the guest profile, outside any
  transaction (`views.py:156-157`). When the profile's email or phone number
  is already taken, the account stays behind without a profile (`GuestRejected`).
- The reservation form has no promotion field (`forms.py:28`), so a new
  reservation never carries a promotion.
- `user_reservations` fails when the account has no profile. The model returns
  `None` there.

## Model

| member | source | states |
|---|---|---|
| `Models.DiscountedPrice` | hotel_management/reservations/models.py:22-26 | When the promotion is missing or its window does not hold the date, the result is the base price. Otherwise its decimal value is exactly `price - price * (pct / 100)`. |
| `Models.ScaledDiscountIsDecimal` | hotel_management/reservations/models.py:24-25 | Computing on cent and hundredth integers gives the same value as the decimal formula. |
| `Models.NoPromotionPriceIsBase` | hotel_management/reservations/models.py:23-26 | A room with no promotion has its base price on every date. |
| `Models.PromotionAppliesExactly` | hotel_management/reservations/models.py:23-26 | For a room with a promotion, a date outside `start_date..end_date` gives the base price and a date inside it gives exactly `price - price * (pct / 100)`. For a non-empty window, both the start and the end date get the discount, and the day before the start and the day after the end get the base price. |
| `Models.InvertedWindowNeverApplies` | hotel_management/reservations/models.py:23 | A promotion whose start date is after its end date never changes the price. |
| `Models.DiscountEdgeCases` | hotel_management/reservations/models.py:24-25 | An applied 0% discount keeps the base price; an applied 100% discount gives 0. |
| `Models.DiscountedPriceBounds` | hotel_management/reservations/models.py:24-25 | With a price of at least 0 and a percentage from 0 to 100, the result lies between 0 and the base price. |
| `Models.HalfOffExample` | hotel_management/reservations/models.py:24-25 | 50% off 100.00 is 50.00. |
| `Models.DiscountedPriceAsWritten` | hotel_management/reservations/models.py:22-26 | The method as written raises if and only if the room has a promotion; without one it returns the base price. |
| `Models.AsWrittenFailsWithPromotion` | hotel_management/reservations/models.py:23 | The method as written raises for every room that has a promotion, and it agrees with the intended rule on every room without one. |
| `Views.Filter` | hotel_management/reservations/views.py:207 | A query filter keeps exactly the records that pass the test, and the result is no longer than the table. |
| `Views.FilterCounts` | hotel_management/reservations/views.py:207 | Each record that passes the test appears in the result as often as in the table; no other record appears. |
| `Views.FilterAppend` | hotel_management/reservations/views.py:207 | Filtering keeps table order: filtering a concatenation gives the concatenation of the filtered parts. |
| `Views.OfferedPromotions` | hotel_management/reservations/views.py:107 | The promotions offered at booking time are exactly those with `start_date <= today <= end_date`, with their multiplicities. |
| `Views.ReservationFormAsWritten` | hotel_management/reservations/views.py:107-109 | The GET branch as written raises if and only if the form has no `promotion` field; otherwise that field receives exactly the promotions active today. |
| `Views.ReservationFormAlwaysRaises` | hotel_management/reservations/views.py:107-109 | With the form's real fields, the GET branch as written raises `KeyError`. A form that had a promotion field would receive exactly the offered promotions. |
| `Views.AvailableRooms` | hotel_management/reservations/views.py:207 | The dashboard rooms are exactly the rooms with `available` set, with their multiplicities. |
| `Views.UserDashboard` | hotel_management/reservations/views.py:207-210 | The dashboard shows exactly the available rooms (the same list as the available-room filter), the promotions active today by the same filter as the booking form, and today's date. |
| `Views.GuestOf` | hotel_management/reservations/views.py:95-98 | The lookup finds a profile belonging to the account, or reports that no profile belongs to it. |
| `Views.FindRoom` | hotel_management/reservations/views.py:99-100 | The lookup finds a room with the posted id, or reports that no room has that id. |
| `Views.UserReservations` | hotel_management/reservations/views.py:117 | The list is exactly the reservations whose guest is the account's profile, each as often as in the table. There is no list when the account has no profile. |
| `Views.NewReservationListed` | hotel_management/reservations/views.py:117 | A new reservation appears at the end of its own guest's list, and every other guest's list is unchanged. |
| `Views.GuestInsertUnique` | hotel_management/reservations/models.py:35-36 | A guest insert keeps email and phone unique if and only if neither is already in the table. |
| `Views.GuestOfIsTheProfile` | hotel_management/reservations/models.py:32 | Because each account has at most one profile, the lookup by account returns that profile. |
| `Views.AccountSavedValid` | hotel_management/reservations/views.py:156 | Saving an account with a fresh id and an unused username keeps the account and guest tables valid, and the new account has no profile. |
| `Views.GuestSavedValid` | hotel_management/reservations/views.py:157-164 | Saving a profile for an account that has none, with an unused email and phone, keeps the tables valid, and the lookup then finds it. |
| `Views.Store.CreateReservation` | hotel_management/reservations/views.py:91-103 | A booking is saved only if the account has a profile (otherwise "profile required") and the posted room exists (otherwise "not found"). The saved reservation is exactly one new row: the next id, the account's guest, the posted room, the submitted dates, no promotion. On failure nothing changes, and every other table is untouched. The table invariants are kept. |
| `Views.FoldCaseMatchesExactly` | hotel_management/reservations/forms.py:40 | Two usernames have the same case-folded key if and only if, position by position, their characters are equal or are the upper- and lower-case forms of one letter A-Z. |
| `Views.UsernameInUse` | hotel_management/reservations/forms.py:40 | A username counts as taken exactly when some account's username differs from it at most in the case of its letters. |
| `Views.CaseVariantUsernameInUse` | hotel_management/reservations/forms.py:40 | Once "alice" holds an account, the sign-up form refuses "Alice". |
| `Views.Store.Valid` | hotel_management/reservations/models.py:5-36 | The table invariant that every store method keeps. Room and promotion ids are distinct, and so are room numbers and promotion codes. Prices fit six digits and percentages fit five. A room's promotion is a promotion row. Account ids and usernames are distinct. Each account has at most one guest profile, and guest emails and phone numbers are distinct. Every reservation's guest, room and promotion resolve to rows. |
| `Views.Store.SaveAccount` | hotel_management/reservations/views.py:156 | Saving the form's account appends exactly one account row under the next id, with the submitted username, email and names. The new account has no profile, and the table invariants are kept. |
| `Views.Store.SaveGuest` | hotel_management/reservations/views.py:157-164 | For a saved account without a profile and an unused email and phone, exactly one guest row is appended under the next id with the submitted fields. The lookup by account then finds it, and the table invariants are kept. |
| `Views.Store.Signup` | hotel_management/reservations/views.py:153-164 | A username already taken, ignoring letter case, saves nothing. Otherwise the account row is appended first. Then, if the email or phone is already used, no guest row is added and the account has no profile. Otherwise exactly one guest row is added, linked to the new account, with the submitted names, email, phone and address. The table invariants are kept. |

## Left out

- HTTP handling is not modelled: request parsing, `render`, `redirect`, flash messages, templates, translated strings and the URL routes.
- Authentication is not modelled: `login_view`, `authenticate`/`login` after sign-up, `@login_required`, `@permission_required` and the staff redirect. The acting account is a parameter.
- The `index` view is not modelled: it only renders the home page.
- The administrative views `create_guest`, `guest_list`, `reservation_list`, `create_room`, `room_list`, `create_promotion` and `promotion_list` are not modelled. They are permission-gated form saves and unfiltered listings.
- Form validation is taken as given and its cleaned values are the inputs. The one exception is the username check of the sign-up form (`UserCreationForm`, which `SignUpForm` extends at `forms.py:40`). It refuses a username that an existing account holds up to letter case, and it is modelled as the `UsernameTaken` outcome. With a valid reservation form the posted room has already been checked, but the model keeps the separate room lookup that the view makes.
- Column length limits of the text fields (`max_length`) are not modelled. Only the decimal column bounds are part of the table invariant, and no modelled view inserts rooms or promotions.
- Passwords and the other account fields are not modelled.
- Store.Signup: the case-insensitive username test folds only the letters A to Z. How the database folds other letters, which depends on the database backend, is not modelled.
- The clock is read once per view: each view takes a single `today`. The source calls `date.today()` several times in one request (twice at `views.py:107`, twice at `views.py:208` and once at `views.py:209`). The model therefore does not capture a request that straddles midnight, where those calls could return different dates.
- `__str__` methods and database migrations are not modelled.
- Concurrency, transactions and database errors other than the unique guest columns are not modelled. The views run one at a time against the store.
- `DiscountedPrice` returns the raw decimal result in millionths. The source's method returns an unquantised decimal and saves nothing, so no rounding is modelled.
- Percentages outside 0 to 100 are not restricted. The column accepts values from -999.99% to 999.99%. Above 100% the formula gives a negative price, and below 0% it gives a price above the base price. `Models.DiscountedPriceBounds` states its bound only for percentages between 0 and 100.

## Findings

| source | as written | input that shows it | evidently intended | confidence | as-written member | corrected member |
|---|---|---|---|---|---|---|
| hotel_management/reservations/models.py:23 | `datetime.date.today()` is evaluated, but the module never imports `datetime`, so the call raises `NameError` | any room whose `promotion` is set | compare the window with today's date, as `views.py:107` does with `date.today()` | high; not executed | `Models.DiscountedPriceAsWritten`, `Models.AsWrittenFailsWithPromotion` | `Models.DiscountedPrice` (today passed as a parameter) |
| hotel_management/reservations/views.py:109 | `form.fields['promotion']` looks up a field that `ReservationForm` does not declare (its fields are room, check_in_date, check_out_date) | any GET of the reservation page | offer only the promotions active today | high; not executed | `Views.ReservationFormAsWritten`, `Views.ReservationFormAlwaysRaises` | `Views.OfferedPromotions` |
