/**
  The admin dashboard (src/components/Dashboard.tsx): the statistics shown
  above the table, the free-text search, and the state changes made by
  login, logout, the RSVP subscription and the forced-password check.
  React's effect scheduling is replaced by explicit calls: an effect is a
  function the caller applies after the state change that triggers it.
*/
module Dashboard {
  import opened Types
  import opened Strings
  import opened Seqs
  import opened FirebaseConfig
  import opened FirebaseService

  predicate IsNo(r: RSVPRecord) {
    r.data.attending == No
  }

  /** What one record adds to the guest total: its party size if attending,
      nothing if declined, whatever party size it stores. */
  function GuestContribution(r: RSVPRecord): int {
    if r.data.attending == Yes then r.data.guestsCount else 0
  }

  /** `rsvps.reduce((acc, curr) => acc + contribution(curr), 0)`: a left fold. */
  function GuestTotal(rs: seq<RSVPRecord>): int
    decreases |rs|
  {
    if |rs| == 0 then 0 else GuestTotal(rs[..|rs| - 1]) + GuestContribution(rs[|rs| - 1])
  }

  /** Sum of the stored party sizes, declined or not, taken from the front. */
  function PartySizeSum(rs: seq<RSVPRecord>): int
    decreases |rs|
  {
    if |rs| == 0 then 0 else rs[0].data.guestsCount + PartySizeSum(rs[1..])
  }

  lemma {:induction false} PartySizeSumAppend(a: seq<RSVPRecord>, b: seq<RSVPRecord>)
    ensures PartySizeSum(a + b) == PartySizeSum(a) + PartySizeSum(b)
    decreases |a|
  {
    if |a| == 0 {
      assert a + b == b;
    } else {
      assert (a + b)[1..] == a[1..] + b;
      PartySizeSumAppend(a[1..], b);
    }
  }

  /** The guest total is the sum of the party sizes of the attending records
      alone: declined records add nothing, whatever they store. */
  lemma {:induction false} GuestTotalIsAttendingPartySizes(rs: seq<RSVPRecord>)
    ensures GuestTotal(rs) == PartySizeSum(Filter(rs, IsYes))
    decreases |rs|
  {
    if |rs| > 0 {
      var init, last := rs[..|rs| - 1], rs[|rs| - 1];
      assert rs == init + [last];
      GuestTotalIsAttendingPartySizes(init);
      var kept, tail := Filter(init, IsYes), Filter([last], IsYes);
      FilterAppend(init, [last], IsYes);
      assert Filter(rs, IsYes) == kept + tail;
      PartySizeSumAppend(kept, tail);
      FilterSingleton(last, IsYes);
      assert PartySizeSum(tail) == GuestContribution(last) by {
        assert [last][1..] == [];
      }
    }
  }

  /** The dashboard's `stats` object. */
  datatype Stats = Stats(totalResponses: nat, attending: nat, notAttending: nat, totalGuests: int)

  /** Responses, attending and declined counts, and the guest total: the two
      counts split the responses, and only attending records add guests. */
  function ComputeStats(rs: seq<RSVPRecord>): (s: Stats)
    ensures s.totalResponses == |rs|
    ensures s.attending == Count(rs, IsYes) && s.notAttending == Count(rs, IsNo)
    ensures s.attending + s.notAttending == s.totalResponses
    ensures s.totalGuests == PartySizeSum(Filter(rs, IsYes))
  {
    FilterLength(rs, IsYes);
    FilterLength(rs, IsNo);
    CountComplement(rs, IsYes, IsNo);
    GuestTotalIsAttendingPartySizes(rs);
    Stats(|rs|, |Filter(rs, IsYes)|, |Filter(rs, IsNo)|, GuestTotal(rs))
  }

  /** A record added at the front of the list (the in-memory save) adds one
      response, one to exactly one of the two counts, and its party size to
      the guest total only if attending. */
  lemma StatsOfPrepended(r: RSVPRecord, rs: seq<RSVPRecord>)
    ensures var before, after := ComputeStats(rs), ComputeStats([r] + rs);
            && after.totalResponses == before.totalResponses + 1
            && after.attending == before.attending + (if IsYes(r) then 1 else 0)
            && after.notAttending == before.notAttending + (if IsNo(r) then 1 else 0)
            && after.totalGuests == before.totalGuests + GuestContribution(r)
  {
    assert ([r] + rs)[1..] == rs;
    FilterAppend([r], rs, IsYes);
    assert [r][1..] == [];
    PartySizeSumAppend(Filter([r], IsYes), Filter(rs, IsYes));
  }

  /** A record matches the lower-cased term when the term occurs in its
      lower-cased guest name, message, or one of its companion names. */
  predicate Matches(r: RSVPRecord, lowerTerm: string, lower: char -> char) {
    || Contains(LowerStr(r.data.guestName, lower), lowerTerm)
    || Contains(LowerStr(r.data.message, lower), lowerTerm)
    || exists i :: 0 <= i < |r.data.guestNames| && Contains(LowerStr(r.data.guestNames[i], lower), lowerTerm)
  }

  /** The search effect: an empty term shows every record; otherwise the
      records matching the lower-cased term, in their original order. */
  function SearchFilter(rs: seq<RSVPRecord>, term: string, lower: char -> char): (r: seq<RSVPRecord>)
    ensures term == "" ==> r == rs
    ensures IsSubseq(r, rs)
    ensures term != "" ==> forall x :: x in r <==> x in rs && Matches(x, LowerStr(term, lower), lower)
    ensures term != "" ==>
              forall x :: multiset(r)[x] == if Matches(x, LowerStr(term, lower), lower) then multiset(rs)[x] else 0
  {
    if term == "" then
      FilterAll(rs, _ => true);
      rs
    else
      var t := LowerStr(term, lower);
      FilterMultiset(rs, x => Matches(x, t, lower));
      Filter(rs, x => Matches(x, t, lower))
  }

  /** Matching in terms of positions: a record matches exactly when the
      lower-cased term occurs at some position of one of the searched
      lower-cased fields. */
  lemma MatchesIffOccurs(r: RSVPRecord, t: string, lower: char -> char)
    ensures Matches(r, t, lower) <==>
            || (exists k :: OccursAt(LowerStr(r.data.guestName, lower), t, k))
            || (exists k :: OccursAt(LowerStr(r.data.message, lower), t, k))
            || (exists i, k :: 0 <= i < |r.data.guestNames| && OccursAt(LowerStr(r.data.guestNames[i], lower), t, k))
  {
    ContainsIffOccurs(LowerStr(r.data.guestName, lower), t);
    ContainsIffOccurs(LowerStr(r.data.message, lower), t);
    forall i | 0 <= i < |r.data.guestNames| {
      ContainsIffOccurs(LowerStr(r.data.guestNames[i], lower), t);
    }
  }

  /** A-Z to a-z, everything else unchanged: enough case mapping for the
      example below. */
  function AsciiLower(c: char): char {
    if 'A' <= c <= 'Z' then (c as int + 32) as char else c
  }

  function ExampleRecord(name: string): RSVPRecord {
    RSVPRecord(RSVPFormData(name, Yes, 1, [], ""), name, 0)
  }

  /** Searching "an" over guests Ana and Ben keeps only Ana. */
  lemma SearchExample()
    ensures SearchFilter([ExampleRecord("Ana"), ExampleRecord("Ben")], "an", AsciiLower) == [ExampleRecord("Ana")]
  {
    var ana, ben := ExampleRecord("Ana"), ExampleRecord("Ben");
    var t := LowerStr("an", AsciiLower);
    assert t == "an";
    assert LowerStr("Ana", AsciiLower) == "ana";
    assert IsPrefix("an", "ana");
    assert Matches(ana, t, AsciiLower);
    assert LowerStr("Ben", AsciiLower) == "ben";
    assert !Contains("ben", "an") by {
      assert !Contains("", "an");
      assert "n"[1..] == "" && !IsPrefix("an", "n");
      assert !Contains("n", "an");
      assert "en"[1..] == "n" && !IsPrefix("an", "en") by { assert "en"[..2] == "en"; }
      assert !Contains("en", "an");
      assert "ben"[1..] == "en" && !IsPrefix("an", "ben") by { assert "ben"[..2] == "be"; }
    }
    assert !Matches(ben, t, AsciiLower);
    var f := x => Matches(x, t, AsciiLower);
    assert [ana, ben][1..] == [ben];
    assert [ben][1..] == [];
    assert Filter([ben], f) == [];
  }

  /** The dashboard's React state. */
  datatype DashboardState = DashboardState(
    user: Option<User>,
    email: string,
    password: string,
    rsvps: seq<RSVPRecord>,
    filtered: seq<RSVPRecord>,
    loading: bool,
    error: Option<string>,
    showPasswordModal: bool,
    forcePasswordChange: bool,
    searchTerm: string,
    showGuestList: bool)

  function InitialDashboard(): DashboardState {
    DashboardState(None, "", "", [], [], true, None, false, false, "", false)
  }

  /** Development mode needs no signed-in user. */
  predicate IsAuthenticated(rt: Runtime, st: DashboardState) {
    rt.isDevMode || st.user.Some?
  }

  lemma DevModeAlwaysAuthenticated(rt: Runtime, st: DashboardState)
    requires rt.isDevMode
    ensures IsAuthenticated(rt, st)
  {
  }

  /** The subscription callback, followed by the search effect that the
      change of `rsvps` triggers: the list becomes the delivered records, the
      shown list is those records under the current search term, loading
      ends, and nothing else changes. */
  function ReceiveRecords(st: DashboardState, data: seq<RSVPRecord>, lower: char -> char): (st': DashboardState)
    ensures st'.rsvps == data && !st'.loading
    ensures st'.filtered == SearchFilter(data, st.searchTerm, lower)
    ensures st.searchTerm == "" ==> st'.filtered == data
    ensures st' == st.(rsvps := data, filtered := st'.filtered, loading := false)
  {
    var delivered := st.(rsvps := data, filtered := data, loading := false);
    delivered.(filtered := SearchFilter(delivered.rsvps, delivered.searchTerm, lower))
  }

  const AccessErrorPrefix := "Няма достъп до RSVP данните. Грешка: "
  const AccessErrorSuffix := ". Проверете конзолата за повече детайли."
  const UnknownSubscriptionError := "Unknown error"

  function AccessError(detail: string): string {
    AccessErrorPrefix + detail + AccessErrorSuffix
  }

  /** The subscription error handler: loading ends and the access error
      names the error's message if it has a non-empty one, else its code if
      non-empty, else "Unknown error"; nothing else changes. */
  function ReceiveError(st: DashboardState, e: FirebaseError): (st': DashboardState)
    ensures st' == st.(loading := false, error := st'.error)
    ensures e.message.Some? && e.message.value != "" ==> st'.error == Some(AccessError(e.message.value))
    ensures (e.message.None? || e.message.value == "") && e.code != "" ==> st'.error == Some(AccessError(e.code))
    ensures (e.message.None? || e.message.value == "") && e.code == "" ==> st'.error == Some(AccessError(UnknownSubscriptionError))
  {
    var detail := OrElse(e.message, OrElse(Some(e.code), UnknownSubscriptionError));
    st.(loading := false, error := Some(AccessError(detail)))
  }

  /** Typing in the search box, followed by the search effect. */
  function SetSearchTerm(st: DashboardState, term: string, lower: char -> char): (st': DashboardState)
    ensures st'.searchTerm == term && st'.rsvps == st.rsvps
    ensures st'.filtered == SearchFilter(st.rsvps, term, lower)
    ensures st' == st.(searchTerm := term, filtered := st'.filtered)
  {
    st.(searchTerm := term, filtered := SearchFilter(st.rsvps, term, lower))
  }

  /** Email and password as handed to the sign-in call. */
  datatype Credentials = Credentials(email: string, password: string)

  /** The outcome of `handleLogin`: the new state and the sign-in attempt made. */
  datatype LoginStep = LoginStep(state: DashboardState, attempt: Option<Credentials>)

  const NotConfiguredError := "Firebase is not configured."
  const BadCredentialsError := "Невалиден имейл или парола."

  /** `handleLogin`: without an authentication handle no sign-in is tried and
      an error is shown; otherwise the trimmed email and the password are
      sent, success clears the password and failure shows an error. */
  function Login(st: DashboardState, hasAuth: bool, signIn: CallOutcome): (r: LoginStep)
    ensures !hasAuth ==> r.attempt.None? && r.state == st.(error := Some(NotConfiguredError))
    ensures hasAuth ==> r.attempt == Some(Credentials(Trim(st.email), st.password))
    ensures hasAuth && signIn.Succeeded? ==> r.state == st.(password := "", error := None)
    ensures hasAuth && signIn.Failed? ==> r.state == st.(error := Some(BadCredentialsError))
  {
    var cleared := st.(error := None);
    if !hasAuth then LoginStep(cleared.(error := Some(NotConfiguredError)), None)
    else
      var attempt := Credentials(Trim(st.email), st.password);
      match signIn
      case Succeeded => LoginStep(cleared.(password := ""), Some(attempt))
      case Failed(_) => LoginStep(cleared.(error := Some(BadCredentialsError)), Some(attempt))
  }

  /** The outcome of `handleLogout`: the new state and whether `signOut` was
      called. */
  datatype LogoutStep = LogoutStep(state: DashboardState, signOutCalled: bool)

  /** `handleLogout` followed by the search effect. With an authentication
      handle `signOut` is awaited first, and if it rejects the handler stops
      with nothing cleared. Otherwise the form fields, the error and both
      record lists are emptied, and the rest is kept. */
  function Logout(st: DashboardState, hasAuth: bool, signOut: CallOutcome, lower: char -> char): (r: LogoutStep)
    ensures r.signOutCalled <==> hasAuth
    ensures hasAuth && signOut.Failed? ==> r.state == st
    ensures !(hasAuth && signOut.Failed?) ==>
              && r.state.email == "" && r.state.password == "" && r.state.error.None?
              && r.state.rsvps == [] && r.state.filtered == []
              && r.state == st.(email := "", password := "", rsvps := [], filtered := [], error := None)
  {
    if hasAuth && signOut.Failed? then LogoutStep(st, true)
    else
      var out := st.(email := "", password := "", rsvps := [], error := None);
      LogoutStep(out.(filtered := SearchFilter(out.rsvps, out.searchTerm, lower)), hasAuth)
  }

  /** The forced-password effect: a profile that asks for a change opens the
      password dialog in forced mode; anything else changes nothing. */
  function CheckUserRequirement(st: DashboardState, profile: Option<UserProfile>): (st': DashboardState)
    ensures profile.Some? && profile.value.requiresPasswordChange ==>
              st'.forcePasswordChange && st'.showPasswordModal
    ensures profile.Some? && profile.value.requiresPasswordChange ==>
              st' == st.(forcePasswordChange := true, showPasswordModal := true)
    ensures !(profile.Some? && profile.value.requiresPasswordChange) ==> st' == st
    ensures st'.rsvps == st.rsvps && st'.user == st.user
  {
    if profile.Some? && profile.value.requiresPasswordChange then
      st.(forcePasswordChange := true, showPasswordModal := true)
    else st
  }

  /** In memory mode the forced-password dialog never opens by itself. */
  lemma MemoryModeNeverForces(rt: Runtime, st: DashboardState, user: User,
                              read: ProfileRead, create: CallOutcome)
    requires UsesMemoryStore(rt)
    ensures CheckUserRequirement(st, GetUserProfile(rt, user, read, create).profile) == st
  {
  }

  /** Closing the password dialog also drops the forced flag. */
  function ClosePasswordModal(st: DashboardState): (st': DashboardState)
    ensures !st'.showPasswordModal && !st'.forcePasswordChange
    ensures st' == st.(showPasswordModal := false, forcePasswordChange := false)
  {
    st.(showPasswordModal := false, forcePasswordChange := false)
  }

  /** Subscribing in memory mode shows exactly the store, and the statistics
      of what is shown are those of the store. */
  lemma DashboardShowsStore(rt: Runtime, st: DashboardState, store: seq<RSVPRecord>,
                            events: seq<ListenEvent>, lower: char -> char)
    requires UsesMemoryStore(rt)
    ensures var d := Subscribe(rt, store, events);
            var st' := ReceiveRecords(st, d[0].records, lower);
            st'.rsvps == store && ComputeStats(st'.rsvps).totalResponses == |store|
  {
  }
}
