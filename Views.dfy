/** The store-level behaviour of the reservation views: the read-only
    queries behind the dashboard, the reservation form and the guest's
    reservation list, and the two views that insert records (booking a
    room and signing up).  The acting account and `today` are
    parameters; rendering, redirects and messages are not modelled. */
module Views {

  import opened Models

  // ---------------------------------------------------------------------
  // Queries

  /** A query filter: the records that satisfy `keep`, in table order
      (their multiplicities are `FilterCounts`). */
  function Filter<T(!new)>(s: seq<T>, keep: T -> bool): (r: seq<T>)
    ensures |r| <= |s|
    ensures forall x :: x in r <==> x in s && keep(x)
  {
    if s == [] then []
    else
      assert s == [s[0]] + s[1..];
      (if keep(s[0]) then [s[0]] else []) + Filter(s[1..], keep)
  }

  /** A filter keeps each record that passes as often as it occurs in the
      table, and no other. */
  lemma {:induction false} FilterCounts<T(!new)>(s: seq<T>, keep: T -> bool)
    ensures forall x :: multiset(Filter(s, keep))[x] == if keep(x) then multiset(s)[x] else 0
  {
    if s != [] {
      assert s == [s[0]] + s[1..];
      FilterCounts(s[1..], keep);
    }
  }

  /** Filtering keeps table order: filtering a concatenation is the
      concatenation of the filtered parts. */
  lemma {:induction false} FilterAppend<T(!new)>(a: seq<T>, b: seq<T>, keep: T -> bool)
    ensures Filter(a + b, keep) == Filter(a, keep) + Filter(b, keep)
  {
    if a == [] {
      assert a + b == b;
    } else {
      assert (a + b)[1..] == a[1..] + b;
      FilterAppend(a[1..], b, keep);
    }
  }

  /** The promotions offered when a reservation is created: those whose
      window holds `today`. */
  function OfferedPromotions(promotions: seq<Promotion>, today: Date): (r: seq<Promotion>)
    ensures forall p :: p in r <==> p in promotions && p.startDate <= today <= p.endDate
    ensures forall p :: multiset(r)[p] == if p.ActiveOn(today) then multiset(promotions)[p] else 0
  {
    FilterCounts(promotions, (p: Promotion) => p.ActiveOn(today));
    Filter(promotions, (p: Promotion) => p.ActiveOn(today))
  }

  /** The fields of the reservation form: room and the two dates. */
  const ReservationFormFields: seq<string> := ["room", "check_in_date", "check_out_date"]

  /** The GET branch of the reservation view as written: it narrows the
      choices of a form field named "promotion", and looking that field up
      raises KeyError when the form has no such field. */
  function ReservationFormAsWritten(fields: seq<string>, promotions: seq<Promotion>, today: Date)
    : (r: Evaluation<seq<Promotion>>)
    ensures r.Raised? <==> "promotion" !in fields
    ensures r.Value? ==> forall p :: p in r.value <==> p in promotions && p.ActiveOn(today)
  {
    if "promotion" in fields then Value(OfferedPromotions(promotions, today))
    else Raised("KeyError")
  }

  /** With the form's actual fields the GET branch always raises, so no
      promotion is ever offered. */
  lemma ReservationFormAlwaysRaises(promotions: seq<Promotion>, today: Date)
    ensures ReservationFormAsWritten(ReservationFormFields, promotions, today) == Raised("KeyError")
    ensures forall fields :: "promotion" in fields ==>
              ReservationFormAsWritten(fields, promotions, today) == Value(OfferedPromotions(promotions, today))
  {
    assert "promotion" != "room" && "promotion" != "check_in_date" && "promotion" != "check_out_date";
  }

  /** The rooms listed on the dashboard: the available ones. */
  function AvailableRooms(rooms: seq<Room>): (r: seq<Room>)
    ensures forall rm :: rm in r <==> rm in rooms && rm.available
    ensures forall rm :: multiset(r)[rm] == if rm.available then multiset(rooms)[rm] else 0
  {
    FilterCounts(rooms, (rm: Room) => rm.available);
    Filter(rooms, (rm: Room) => rm.available)
  }

  datatype Dashboard = Dashboard(rooms: seq<Room>, promotions: seq<Promotion>, today: Date)

  /** What the guest dashboard shows: the available rooms and the
      promotions active today, by the same window test as the
      reservation form. */
  function UserDashboard(rooms: seq<Room>, promotions: seq<Promotion>, today: Date): (r: Dashboard)
    ensures forall rm :: rm in r.rooms <==> rm in rooms && rm.available
    ensures r.rooms == AvailableRooms(rooms)
    ensures forall p :: p in r.promotions <==> p in promotions && p.ActiveOn(today)
    ensures r.promotions == OfferedPromotions(promotions, today)
    ensures r.today == today
  {
    Dashboard(AvailableRooms(rooms), OfferedPromotions(promotions, today), today)
  }

  /** The guest profile of an account, if it has one. */
  function GuestOf(guests: seq<Guest>, user: nat): (r: Option<Guest>)
    ensures r.Some? ==> r.value in guests && r.value.user == user
    ensures r.None? <==> forall g :: g in guests ==> g.user != user
  {
    if guests == [] then None
    else if guests[0].user == user then Some(guests[0])
    else GuestOf(guests[1..], user)
  }

  /** The room with a given id, if any. */
  function FindRoom(rooms: seq<Room>, id: nat): (r: Option<Room>)
    ensures r.Some? ==> r.value in rooms && r.value.id == id
    ensures r.None? <==> forall rm :: rm in rooms ==> rm.id != id
  {
    if rooms == [] then None
    else if rooms[0].id == id then Some(rooms[0])
    else FindRoom(rooms[1..], id)
  }

  /** The reservations of the acting account's guest profile; `None`
      when the account has no profile (the source fails there). */
  function UserReservations(guests: seq<Guest>, reservations: seq<Reservation>, user: nat)
    : (r: Option<seq<Reservation>>)
    ensures r.None? <==> GuestOf(guests, user).None?
    ensures r.Some? ==> forall rv :: rv in r.value <==>
              rv in reservations && rv.guest == GuestOf(guests, user).value.id
    ensures r.Some? ==> forall rv ::
              multiset(r.value)[rv]
              == if rv.guest == GuestOf(guests, user).value.id then multiset(reservations)[rv] else 0
  {
    match GuestOf(guests, user)
    case None => None
    case Some(g) =>
      FilterCounts(reservations, MadeBy(g.id));
      Some(Filter(reservations, MadeBy(g.id)))
  }

  /** The test `reservation.guest == guest`, as a filter. */
  function MadeBy(guest: nat): Reservation -> bool {
    (rv: Reservation) => rv.guest == guest
  }

  // ---------------------------------------------------------------------
  // Table invariants

  /** No two guest rows share an id, an account, an email or a phone number. */
  predicate GuestsUnique(guests: seq<Guest>) {
    forall i, j :: 0 <= i < j < |guests| ==>
      && guests[i].id != guests[j].id
      && guests[i].user != guests[j].user
      && guests[i].email != guests[j].email
      && guests[i].phoneNumber != guests[j].phoneNumber
  }

  /** Some guest row already holds this email or this phone number. */
  predicate GuestConflict(guests: seq<Guest>, email: string, phoneNumber: string) {
    exists g :: g in guests && (g.email == email || g.phoneNumber == phoneNumber)
  }

  /** Inserting a guest with a fresh id and account keeps the table
      unique exactly when its email and phone number are both unused. */
  lemma GuestInsertUnique(guests: seq<Guest>, g: Guest)
    requires GuestsUnique(guests)
    requires forall h :: h in guests ==> h.id != g.id && h.user != g.user
    ensures GuestsUnique(guests + [g]) <==> !GuestConflict(guests, g.email, g.phoneNumber)
  {
    var t := guests + [g];
    if GuestConflict(guests, g.email, g.phoneNumber) {
      var h :| h in guests && (h.email == g.email || h.phoneNumber == g.phoneNumber);
      var i :| 0 <= i < |guests| && guests[i] == h;
      assert t[i] == h && t[|guests|] == g;
      assert !GuestsUnique(t);
    } else {
      forall i, j | 0 <= i < j < |t|
        ensures t[i].id != t[j].id && t[i].user != t[j].user
        ensures t[i].email != t[j].email && t[i].phoneNumber != t[j].phoneNumber
      {
        if j == |guests| {
          assert t[i] in guests;
        }
      }
    }
  }

  /** With one profile per account, the lookup finds THE profile. */
  lemma GuestOfIsTheProfile(guests: seq<Guest>, g: Guest)
    requires GuestsUnique(guests)
    requires g in guests
    ensures GuestOf(guests, g.user) == Some(g)
  {
  }

  /** A new reservation shows up, at the end, in the list of exactly the
      guest it was made for; every other guest's list is unchanged. */
  lemma NewReservationListed(guests: seq<Guest>, reservations: seq<Reservation>,
                             rv: Reservation, user: nat)
    requires GuestOf(guests, user).Some?
    ensures UserReservations(guests, reservations + [rv], user)
            == Some(UserReservations(guests, reservations, user).value
                    + (if rv.guest == GuestOf(guests, user).value.id then [rv] else []))
  {
    var keep := MadeBy(GuestOf(guests, user).value.id);
    assert UserReservations(guests, reservations, user) == Some(Filter(reservations, keep));
    assert UserReservations(guests, reservations + [rv], user)
           == Some(Filter(reservations + [rv], keep));
    FilterAppend(reservations, [rv], keep);
    assert [rv][1..] == [];
    assert Filter([rv], keep) == (if keep(rv) then [rv] else []) + Filter([], keep);
    assert Filter([rv], keep) == if rv.guest == GuestOf(guests, user).value.id then [rv] else [];
  }

  // ---------------------------------------------------------------------
  // The store

  /** An authentication account, with the fields sign-up writes to it. */
  datatype Account = Account(
    id: nat,
    username: string,
    email: string,
    firstName: string,
    lastName: string)

  /** The cleaned fields of a sign-up form. */
  datatype SignupForm = SignupForm(
    username: string,
    email: string,
    firstName: string,
    lastName: string,
    phoneNumber: string,
    address: string)

  datatype BookingOutcome = Booked(reservation: nat) | ProfileRequired | RoomNotFound

  /** `GuestRejected` keeps the account that was already saved. */
  datatype SignupOutcome =
    | SignedUp(account: nat, guest: nat)
    | UsernameTaken
    | GuestRejected(account: nat)

  /** A letter `A`-`Z` as its lower-case form; every other character as is. */
  function LowerAscii(c: char): char {
    if 'A' <= c <= 'Z' then (c as int - 'A' as int + 'a' as int) as char else c
  }

  /** The case-insensitive key of a username, as the sign-up form compares
      usernames: each character through `LowerAscii`. */
  function FoldCase(s: string): (r: string)
    ensures |r| == |s|
    ensures forall i :: 0 <= i < |s| ==> r[i] == LowerAscii(s[i])
  {
    if s == [] then [] else [LowerAscii(s[0])] + FoldCase(s[1..])
  }

  /** Two characters that are equal, or are the upper- and lower-case
      forms of one letter `A`-`Z` / `a`-`z`. */
  predicate SameUpToCase(x: char, y: char) {
    || x == y
    || ('A' <= x <= 'Z' && y as int == x as int + 32)
    || ('A' <= y <= 'Z' && x as int == y as int + 32)
  }

  /** Two strings that differ at most in the case of their letters. */
  ghost predicate EqualIgnoringCase(a: string, b: string) {
    |a| == |b| && forall i :: 0 <= i < |a| ==> SameUpToCase(a[i], b[i])
  }

  /** Two characters lower-case alike exactly when they agree up to case. */
  lemma LowerAsciiMatches(x: char, y: char)
    ensures LowerAscii(x) == LowerAscii(y) <==> SameUpToCase(x, y)
  {
  }

  /** Folded keys agree exactly when the strings differ only in letter case. */
  lemma FoldCaseMatchesExactly(a: string, b: string)
    ensures FoldCase(a) == FoldCase(b) <==> EqualIgnoringCase(a, b)
  {
    if |a| == |b| {
      forall i | 0 <= i < |a|
        ensures FoldCase(a)[i] == FoldCase(b)[i] <==> SameUpToCase(a[i], b[i])
      {
        LowerAsciiMatches(a[i], b[i]);
      }
      if EqualIgnoringCase(a, b) {
        assert forall i :: 0 <= i < |a| ==> FoldCase(a)[i] == FoldCase(b)[i];
      }
    }
  }

  /** `FoldCaseMatchesExactly` for one username against every account. */
  lemma UsernamesMatchIgnoringCase(accounts: seq<Account>, username: string)
    ensures forall a :: a in accounts ==>
              (FoldCase(a.username) == FoldCase(username) <==> EqualIgnoringCase(a.username, username))
  {
    forall a | a in accounts
      ensures FoldCase(a.username) == FoldCase(username) <==> EqualIgnoringCase(a.username, username)
    {
      FoldCaseMatchesExactly(a.username, username);
    }
  }

  /** The sign-up form refuses a username that an existing account holds,
      ignoring letter case. */
  predicate UsernameInUse(accounts: seq<Account>, username: string): (r: bool)
    ensures r <==> exists a :: a in accounts && EqualIgnoringCase(a.username, username)
  {
    UsernamesMatchIgnoringCase(accounts, username);
    exists a :: a in accounts && FoldCase(a.username) == FoldCase(username)
  }

  /** "Alice" is refused once "alice" holds an account. */
  lemma CaseVariantUsernameInUse(a: Account)
    requires a.username == "alice"
    ensures UsernameInUse([a], "Alice")
  {
    assert FoldCase("Alice") == FoldCase("alice") by {
      FoldCaseMatchesExactly("Alice", "alice");
    }
  }

  ghost function AccountIds(accounts: seq<Account>): set<nat> {
    set a | a in accounts :: a.id
  }

  ghost function GuestIds(guests: seq<Guest>): set<nat> {
    set g | g in guests :: g.id
  }

  ghost function RoomIds(rooms: seq<Room>): set<nat> {
    set rm | rm in rooms :: rm.id
  }

  ghost function PromotionIds(promotions: seq<Promotion>): set<nat> {
    set p | p in promotions :: p.id
  }

  /** Rooms and promotions: distinct ids, distinct room numbers and
      promotion codes, decimals within their columns, and a room's
      promotion is a row of the promotion table. */
  ghost predicate CatalogueValid(rooms: seq<Room>, promotions: seq<Promotion>) {
    && (forall i, j :: 0 <= i < j < |rooms| ==>
          rooms[i].id != rooms[j].id && rooms[i].roomNumber != rooms[j].roomNumber)
    && (forall rm :: rm in rooms ==> rm.WellFormed())
    && (forall rm :: rm in rooms && rm.promotion.Some? ==> rm.promotion.value in promotions)
    && (forall i, j :: 0 <= i < j < |promotions| ==>
          promotions[i].id != promotions[j].id && promotions[i].code != promotions[j].code)
    && (forall p :: p in promotions ==> p.WellFormed())
  }

  /** Accounts: distinct ids and usernames, every id issued before `next`. */
  ghost predicate AccountsValid(accounts: seq<Account>, next: nat) {
    && (forall i, j :: 0 <= i < j < |accounts| ==>
          accounts[i].id != accounts[j].id && accounts[i].username != accounts[j].username)
    && (forall a :: a in accounts ==> a.id < next)
  }

  /** Guests: unique rows, each belonging to an existing account. */
  ghost predicate GuestsValid(guests: seq<Guest>, accounts: seq<Account>, next: nat) {
    && GuestsUnique(guests)
    && (forall g :: g in guests ==> g.id < next && g.user in AccountIds(accounts))
  }

  /** Reservations: distinct ids and foreign keys that resolve. */
  ghost predicate ReservationsValid(reservations: seq<Reservation>, guests: seq<Guest>,
                                    rooms: seq<Room>, promotions: seq<Promotion>, next: nat) {
    && (forall i, j :: 0 <= i < j < |reservations| ==> reservations[i].id != reservations[j].id)
    && (forall rv :: rv in reservations ==>
          && rv.id < next
          && rv.guest in GuestIds(guests)
          && rv.room in RoomIds(rooms)
          && (rv.promotion.Some? ==> rv.promotion.value in PromotionIds(promotions)))
  }

  /** Saving a new account with a fresh id and an unused username keeps
      the account and guest tables valid; no profile belongs to it yet. */
  lemma AccountSavedValid(accounts: seq<Account>, nextAccount: nat,
                          guests: seq<Guest>, nextGuest: nat, a: Account)
    requires AccountsValid(accounts, nextAccount)
    requires GuestsValid(guests, accounts, nextGuest)
    requires a.id == nextAccount && !UsernameInUse(accounts, a.username)
    ensures AccountsValid(accounts + [a], nextAccount + 1)
    ensures GuestsValid(guests, accounts + [a], nextGuest)
    ensures GuestOf(guests, a.id).None?
  {
  }

  /** Saving a guest profile with a fresh id, for an account that has
      none, keeps the guest and reservation tables valid when its email
      and phone number are unused; the lookup then finds it. */
  lemma GuestSavedValid(guests: seq<Guest>, accounts: seq<Account>, nextGuest: nat,
                        reservations: seq<Reservation>, rooms: seq<Room>,
                        promotions: seq<Promotion>, nextReservation: nat, g: Guest)
    requires GuestsValid(guests, accounts, nextGuest)
    requires ReservationsValid(reservations, guests, rooms, promotions, nextReservation)
    requires g.id == nextGuest && g.user in AccountIds(accounts)
    requires GuestOf(guests, g.user).None?
    requires !GuestConflict(guests, g.email, g.phoneNumber)
    ensures GuestsValid(guests + [g], accounts, nextGuest + 1)
    ensures ReservationsValid(reservations, guests + [g], rooms, promotions, nextReservation)
    ensures GuestOf(guests + [g], g.user) == Some(g)
  {
    GuestInsertUnique(guests, g);
  }

  /** The database tables the views read and write. */
  class Store {
    var rooms: seq<Room>
    var promotions: seq<Promotion>
    var accounts: seq<Account>
    var guests: seq<Guest>
    var reservations: seq<Reservation>
    var nextAccountId: nat
    var nextGuestId: nat
    var nextReservationId: nat

    ghost predicate Valid()
      reads this
    {
      && CatalogueValid(rooms, promotions)
      && AccountsValid(accounts, nextAccountId)
      && GuestsValid(guests, accounts, nextGuestId)
      && ReservationsValid(reservations, guests, rooms, promotions, nextReservationId)
    }

    /** A store holding a catalogue of rooms and promotions and nothing else. */
    constructor (rooms: seq<Room>, promotions: seq<Promotion>)
      requires CatalogueValid(rooms, promotions)
      ensures Valid()
      ensures this.rooms == rooms && this.promotions == promotions
      ensures accounts == [] && guests == [] && reservations == []
    {
      this.rooms := rooms;
      this.promotions := promotions;
      accounts, guests, reservations := [], [], [];
      nextAccountId, nextGuestId, nextReservationId := 0, 0, 0;
    }

    /** Books `roomId` from `checkIn` to `checkOut` for the acting account.
        The account must have a guest profile and the room must exist;
        otherwise nothing is saved.  The dates are taken as submitted and
        the reservation carries no promotion. */
    method CreateReservation(user: nat, roomId: nat, checkIn: Date, checkOut: Date)
      returns (outcome: BookingOutcome)
      requires Valid()
      modifies this`reservations, this`nextReservationId
      ensures Valid()
      ensures GuestOf(guests, user).None? ==> outcome == ProfileRequired
      ensures GuestOf(guests, user).Some? && FindRoom(rooms, roomId).None?
              ==> outcome == RoomNotFound
      ensures outcome.Booked? <==> GuestOf(guests, user).Some? && FindRoom(rooms, roomId).Some?
      ensures !outcome.Booked? ==> unchanged(this)
      ensures outcome.Booked? ==>
                && outcome.reservation == old(nextReservationId)
                && nextReservationId == old(nextReservationId) + 1
                && reservations == old(reservations) + [Reservation(
                     outcome.reservation, GuestOf(guests, user).value.id, roomId,
                     checkIn, checkOut, None)]
    {
      // the form's unsaved instance: the submitted dates, no promotion
      var reservation := Reservation(0, 0, roomId, checkIn, checkOut, None);
      var guest := GuestOf(guests, user);
      if guest.None? {
        return ProfileRequired;
      }
      reservation := reservation.(guest := guest.value.id);
      var room := FindRoom(rooms, roomId);
      if room.None? {
        return RoomNotFound;
      }
      reservation := reservation.(room := room.value.id);
      // saving assigns the next id of the table
      reservation := reservation.(id := nextReservationId);
      assert reservation.guest in GuestIds(guests);
      assert reservation.room in RoomIds(rooms);
      reservations := reservations + [reservation];
      nextReservationId := nextReservationId + 1;
      outcome := Booked(reservation.id);
    }

    /** Registers a new account, then creates its guest profile from the
        same form.  The account is saved first: when the profile's email
        or phone number is already taken it stays behind without a
        profile. */
    method Signup(form: SignupForm) returns (outcome: SignupOutcome)
      requires Valid()
      modifies this`accounts, this`nextAccountId, this`guests, this`nextGuestId
      ensures Valid()
      ensures outcome == UsernameTaken <==> UsernameInUse(old(accounts), form.username)
      ensures outcome == UsernameTaken ==> unchanged(this)
      ensures outcome != UsernameTaken ==>
                && outcome.account == old(nextAccountId)
                && nextAccountId == old(nextAccountId) + 1
                && accounts == old(accounts) + [Account(
                     outcome.account, form.username, form.email, form.firstName, form.lastName)]
      ensures outcome.GuestRejected? <==>
                !UsernameInUse(old(accounts), form.username)
                && GuestConflict(old(guests), form.email, form.phoneNumber)
      ensures outcome.GuestRejected? ==>
                guests == old(guests) && nextGuestId == old(nextGuestId)
                && GuestOf(guests, outcome.account).None?
      ensures outcome.SignedUp? ==>
                && outcome.guest == old(nextGuestId)
                && nextGuestId == old(nextGuestId) + 1
                && guests == old(guests) + [Guest(
                     outcome.guest, outcome.account, form.firstName, form.lastName,
                     form.email, form.phoneNumber, form.address)]
                && GuestOf(guests, outcome.account) == Some(guests[|guests| - 1])
    {
      if UsernameInUse(accounts, form.username) {
        return UsernameTaken;
      }
      var account := SaveAccount(form);
      if GuestConflict(guests, form.email, form.phoneNumber) {
        return GuestRejected(account.id);
      }
      var guest := SaveGuest(account, form);
      outcome := SignedUp(account.id, guest.id);
    }

    /** `form.save()`: the account row, under the next account id. */
    method SaveAccount(form: SignupForm) returns (account: Account)
      requires Valid()
      requires !UsernameInUse(accounts, form.username)
      modifies this`accounts, this`nextAccountId
      ensures Valid()
      ensures account == Account(old(nextAccountId), form.username, form.email,
                                 form.firstName, form.lastName)
      ensures accounts == old(accounts) + [account]
      ensures nextAccountId == old(nextAccountId) + 1
      ensures GuestOf(guests, account.id).None?
    {
      account := Account(nextAccountId, form.username, form.email,
                         form.firstName, form.lastName);
      AccountSavedValid(accounts, nextAccountId, guests, nextGuestId, account);
      accounts := accounts + [account];
      nextAccountId := nextAccountId + 1;
    }

    /** The guest row for a saved account that has no profile yet, once
        the unique email and phone columns accept it. */
    method SaveGuest(account: Account, form: SignupForm) returns (guest: Guest)
      requires Valid()
      requires account.id in AccountIds(accounts)
      requires GuestOf(guests, account.id).None?
      requires !GuestConflict(guests, form.email, form.phoneNumber)
      modifies this`guests, this`nextGuestId
      ensures Valid()
      ensures guest == Guest(old(nextGuestId), account.id, form.firstName, form.lastName,
                             form.email, form.phoneNumber, form.address)
      ensures guests == old(guests) + [guest]
      ensures nextGuestId == old(nextGuestId) + 1
      ensures GuestOf(guests, account.id) == Some(guest)
    {
      guest := Guest(nextGuestId, account.id, form.firstName, form.lastName,
                     form.email, form.phoneNumber, form.address);
      GuestSavedValid(guests, accounts, nextGuestId, reservations, rooms, promotions,
                      nextReservationId, guest);
      guests := guests + [guest];
      nextGuestId := nextGuestId + 1;
    }
  }
}
