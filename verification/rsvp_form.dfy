/**
  The guest's RSVP form (src/components/RSVPForm.tsx): its initial state,
  the field edits, the party-size resize of the companion-name slots, and
  the status changes of a submission.
*/
module RsvpForm {
  import opened Types
  import opened Strings
  import opened FirebaseConfig
  import opened FirebaseService

  datatype FormStatus = Idle | Submitting | Success | Error

  datatype FormState = FormState(data: RSVPFormData, status: FormStatus, errorMessage: string)

  /** The empty form: attending, a party of one, no companions. */
  function InitialData(): RSVPFormData {
    RSVPFormData("", Yes, 1, [], "")
  }

  function InitialState(): FormState {
    FormState(InitialData(), Idle, "")
  }

  function Max0(x: int): nat {
    if x > 0 then x else 0
  }

  /** The form's invariant: one companion slot per guest beyond the first. */
  predicate WellSized(d: RSVPFormData) {
    |d.guestNames| == Max0(d.guestsCount - 1)
  }

  /** Value of a character as a digit (36 for a non-digit). */
  function DigitVal(c: char): (v: nat)
    ensures v <= 36
  {
    if '0' <= c <= '9' then c as int - '0' as int
    else if 'a' <= c <= 'z' then c as int - 'a' as int + 10
    else if 'A' <= c <= 'Z' then c as int - 'A' as int + 10
    else 36
  }

  /** The two radixes `parseInt` chooses between when none is given. */
  datatype Radix = Decimal | Hex

  function Base(radix: Radix): nat {
    if radix.Hex? then 16 else 10
  }

  /** Length of the longest prefix of digits in the given radix. */
  function DigitRun(s: string, radix: Radix): (n: nat)
    ensures n <= |s|
    decreases |s|
  {
    if |s| == 0 || DigitVal(s[0]) >= Base(radix) then 0 else 1 + DigitRun(s[1..], radix)
  }

  /** Value of a string of digits in the given radix, most significant first. */
  function RadixValue(s: string, radix: Radix): nat
    decreases |s|
  {
    if |s| == 0 then 0
    else
      var d := DigitVal(s[|s| - 1]);
      var last := if d < Base(radix) then d else 0;
      var prefix := RadixValue(s[..|s| - 1], radix);
      (if radix.Hex? then prefix * 16 else prefix * 10) + last
  }

  /** JavaScript's `parseInt(s)` with no radix: leading whitespace is
      skipped, then an optional sign, then a "0x"/"0X" prefix selects
      hexadecimal; the longest run of digits is read and anything after it
      ignored. No digits gives NaN (None). Negative zero is not told apart
      from zero; both are falsy. */
  function ParseInt(s: string): (r: Option<int>)
    ensures IsBlank(s) ==> r.None?
    ensures r.Some? ==> exists i :: 0 <= i < |s| && IsDigit(s[i])
  {
    var t := TrimStart(s);
    var r := ParseSigned(t);
    if r.Some? then
      SignedNeedsDigit(t);
      var i :| 0 <= i < |t| && IsDigit(t[i]);
      assert s[|s| - |t| + i] == t[i];
      r
    else
      r
  }

  /** A number is read only if there is a digit: the sign and the "0x"
      prefix alone give NaN. */
  lemma SignedNeedsDigit(t: string)
    requires ParseSigned(t).Some?
    ensures exists i :: 0 <= i < |t| && IsDigit(t[i])
  {
    var u := if |t| > 0 && (t[0] == '-' || t[0] == '+') then t[1..] else t;
    var hex := |u| >= 2 && u[0] == '0' && (u[1] == 'x' || u[1] == 'X');
    var v := if hex then u[2..] else u;
    var j := |t| - |u|;
    if hex {
      assert IsDigit(t[j]);
    } else {
      assert DigitRun(v, Decimal) > 0;
      assert IsDigit(t[j]);
    }
  }

  /** `parseInt` after the leading whitespace: an optional sign, then the
      magnitude. */
  function ParseSigned(t: string): Option<int> {
    var negative := |t| > 0 && t[0] == '-';
    var u := if |t| > 0 && (t[0] == '-' || t[0] == '+') then t[1..] else t;
    var magnitude := ParseMagnitude(u);
    if magnitude.None? then None
    else Some(if negative then -(magnitude.value as int) else magnitude.value as int)
  }

  /** The unsigned part of `parseInt`: a "0x"/"0X" prefix selects
      hexadecimal, then the longest run of digits is read. */
  function ParseMagnitude(u: string): Option<nat> {
    var hex := |u| >= 2 && u[0] == '0' && (u[1] == 'x' || u[1] == 'X');
    var radix := if hex then Hex else Decimal;
    var v := if hex then u[2..] else u;
    var n := DigitRun(v, radix);
    if n == 0 then None else Some(RadixValue(v[..n], radix))
  }

  /** `parseInt(value) || 1`: NaN and zero fall back to one. */
  function ParseGuestsCount(raw: string): (c: int)
    ensures c != 0
    ensures ParseInt(raw).None? ==> c == 1
    ensures ParseInt(raw).Some? && ParseInt(raw).value != 0 ==> c == ParseInt(raw).value
    ensures ParseInt(raw) == Some(0) ==> c == 1
  {
    match ParseInt(raw)
    case None => 1
    case Some(v) => if v == 0 then 1 else v
  }

  lemma {:induction false} RadixTenIsDecimal(s: string)
    requires AllDigits(s)
    ensures RadixValue(s, Decimal) == DecimalValue(s)
    decreases |s|
  {
    if |s| > 0 {
      RadixTenIsDecimal(s[..|s| - 1]);
    }
  }

  lemma {:induction false} AllDigitsRun(s: string)
    requires AllDigits(s)
    ensures DigitRun(s, Decimal) == |s|
    decreases |s|
  {
    if |s| > 0 {
      AllDigitsRun(s[1..]);
    }
  }

  /** The party-size menu offers the numbers from 1 up as decimal strings;
      choosing one yields that number. */
  lemma ParseMenuOption(n: nat)
    requires n >= 1
    ensures ParseGuestsCount(NatToDecimal(n)) == n
  {
    var s := NatToDecimal(n);
    assert !IsWhitespace(s[0]);
    assert TrimStart(s) == s;
    AllDigitsRun(s);
    assert s[..|s|] == s;
    RadixTenIsDecimal(s);
    NatToDecimalValue(n);
  }

  /** Leading whitespace is all `TrimStart` removes. */
  lemma {:induction false} TrimStartBlankPrefix(w: string, s: string)
    requires IsBlank(w) && (|s| == 0 || !IsWhitespace(s[0]))
    ensures TrimStart(w + s) == s
    decreases |w|
  {
    if |w| == 0 {
      assert w + s == s;
    } else {
      assert (w + s)[1..] == w[1..] + s;
      TrimStartBlankPrefix(w[1..], s);
    }
  }

  /** The digit run stops at the first character that is not a digit. */
  lemma {:induction false} DigitRunStops(ds: string, rest: string)
    requires AllDigits(ds) && (|rest| == 0 || DigitVal(rest[0]) >= 10)
    ensures DigitRun(ds + rest, Decimal) == |ds|
    decreases |ds|
  {
    if |ds| == 0 {
      assert ds + rest == rest;
    } else {
      assert (ds + rest)[1..] == ds[1..] + rest;
      DigitRunStops(ds[1..], rest);
    }
  }

  /** Decimal digits followed by something that is not a letter or digit
      read as exactly those digits. */
  lemma MagnitudeOfDecimal(ds: string, rest: string)
    requires |ds| >= 1 && AllDigits(ds)
    requires |rest| == 0 || DigitVal(rest[0]) == 36
    ensures ParseMagnitude(ds + rest) == Some(DecimalValue(ds))
  {
    var u := ds + rest;
    if |u| >= 2 {
      assert u[1] != 'x' && u[1] != 'X' by {
        if |ds| == 1 {
          assert u[1] == rest[0];
        } else {
          assert u[1] == ds[1] && IsDigit(ds[1]);
        }
      }
    }
    DigitRunStops(ds, rest);
    var hex := |u| >= 2 && u[0] == '0' && (u[1] == 'x' || u[1] == 'X');
    assert !hex;
    assert DigitRun(u, Decimal) == |ds|;
    assert ParseMagnitude(u) == Some(RadixValue(u[..|ds|], Decimal));
    assert u[..|ds|] == ds;
    RadixTenIsDecimal(ds);
  }

  /** Leading whitespace is skipped before the sign. */
  lemma ParseIntSkipsWhitespace(w: string, t: string)
    requires IsBlank(w) && (|t| == 0 || !IsWhitespace(t[0]))
    ensures ParseInt(w + t) == ParseSigned(t)
  {
    TrimStartBlankPrefix(w, t);
  }

  /** Decimal digits, then something that is not a letter or digit: the
      digits' value. */
  lemma ParseUnsignedDecimal(ds: string, rest: string)
    requires |ds| >= 1 && AllDigits(ds)
    requires |rest| == 0 || DigitVal(rest[0]) == 36
    ensures ParseSigned(ds + rest) == Some(DecimalValue(ds) as int)
  {
    MagnitudeOfDecimal(ds, rest);
    assert IsDigit((ds + rest)[0]);
  }

  /** A minus sign, decimal digits, then something that is not a letter or
      digit: the digits' value, negated. */
  lemma ParseNegativeDecimal(ds: string, rest: string)
    requires |ds| >= 1 && AllDigits(ds)
    requires |rest| == 0 || DigitVal(rest[0]) == 36
    ensures ParseSigned(['-'] + (ds + rest)).Some?
    ensures ParseSigned(['-'] + (ds + rest)).value == -(DecimalValue(ds) as int)
  {
    MagnitudeOfDecimal(ds, rest);
    MinusSign(ds + rest, DecimalValue(ds));
  }

  /** A minus sign negates whatever magnitude follows it. */
  lemma MinusSign(u: string, m: nat)
    requires ParseMagnitude(u) == Some(m)
    ensures ParseSigned(['-'] + u) == Some(-(m as int))
  {
    assert (['-'] + u)[1..] == u;
  }

  /** `parseInt` on whitespace, an optional minus sign, decimal digits and
      then anything that is not a letter or digit reads exactly those
      digits, with the sign. */
  lemma ParseIntReadsLeadingDigits(w: string, ds: string, rest: string)
    requires IsBlank(w) && |ds| >= 1 && AllDigits(ds)
    requires |rest| == 0 || DigitVal(rest[0]) == 36
    ensures ParseInt(w + (ds + rest)) == Some(DecimalValue(ds) as int)
    ensures ParseInt(w + (['-'] + (ds + rest))).Some?
    ensures ParseInt(w + (['-'] + (ds + rest))).value == -(DecimalValue(ds) as int)
  {
    assert IsDigit(ds[0]);
    ParseIntSkipsWhitespace(w, ds + rest);
    ParseUnsignedDecimal(ds, rest);
    ParseIntSkipsWhitespace(w, ['-'] + (ds + rest));
    ParseNegativeDecimal(ds, rest);
  }

  /** Input with no digits falls back to a party of one. */
  lemma ParseGuestsCountWithoutDigits()
    ensures ParseGuestsCount("") == 1
    ensures ParseGuestsCount("abc") == 1
  {
    assert DigitVal('a') == 10;
    assert TrimStart("abc") == "abc";
  }

  /** Zero is falsy, so it falls back to a party of one too. */
  lemma ParseGuestsCountOfZero()
    ensures ParseGuestsCount("0") == 1
  {
    ParseUnsignedDecimal("0", "");
    assert "0" + "" == "0";
    assert DecimalValue("0") == 0 by { assert "0"[..0] == ""; }
    TrimStartBlankPrefix("", "0");
    assert "" + "0" == "0";
  }

  /** A "0x" prefix switches to hexadecimal. */
  lemma ParseHexExample()
    ensures ParseGuestsCount("0x1A") == 26
  {
    TrimStartBlankPrefix("", "0x1A");
    assert "" + "0x1A" == "0x1A";
    assert ParseMagnitude("0x1A") == Some(26) by {
      assert "0x1A"[2..] == "1A";
      assert DigitRun("1A", Hex) == 2 by { assert "1A"[1..] == "A"; assert "A"[1..] == ""; }
      assert "1A"[..2] == "1A";
      assert RadixValue("1A", Hex) == 26 by { assert "1A"[..1] == "1"; assert "1"[..0] == ""; }
    }
    assert ParseSigned("0x1A") == Some(26);
  }

  /** `Array(max(0, count - 1))` refilled from the old slots: the slots below
      the new length keep their names, new slots are empty. */
  function ResizeGuestNames(prev: seq<string>, count: int): (r: seq<string>)
    ensures |r| == Max0(count - 1)
    ensures forall i :: 0 <= i < |r| ==> r[i] == if i < |prev| then prev[i] else ""
  {
    seq(Max0(count - 1), i requires 0 <= i < Max0(count - 1) =>
      if i < |prev| && prev[i] != "" then prev[i] else "")
  }

  /** A change event from one of the form's inputs. */
  datatype FieldEdit =
    | GuestNameEdit(name: string)
    | AttendingEdit(attending: Attendance)
    | GuestsCountEdit(raw: string)
    | MessageEdit(message: string)

  /** `handleChange`: a party-size edit sets the parsed count and resizes the
      companion slots to match; any other edit sets its own field only. */
  function HandleChange(d: RSVPFormData, e: FieldEdit): (d': RSVPFormData)
    ensures e.GuestsCountEdit? ==>
              && d'.guestsCount == ParseGuestsCount(e.raw)
              && |d'.guestNames| == Max0(d'.guestsCount - 1)
              && (forall i :: 0 <= i < |d'.guestNames| ==>
                    d'.guestNames[i] == if i < |d.guestNames| then d.guestNames[i] else "")
              && d'.guestName == d.guestName && d'.attending == d.attending && d'.message == d.message
    ensures !e.GuestsCountEdit? ==> d'.guestsCount == d.guestsCount && d'.guestNames == d.guestNames
    ensures e.GuestNameEdit? ==> d' == d.(guestName := e.name)
    ensures e.AttendingEdit? ==> d' == d.(attending := e.attending)
    ensures e.MessageEdit? ==> d' == d.(message := e.message)
  {
    match e
    case GuestsCountEdit(raw) =>
      var count := ParseGuestsCount(raw);
      d.(guestsCount := count, guestNames := ResizeGuestNames(d.guestNames, count))
    case GuestNameEdit(v) => d.(guestName := v)
    case AttendingEdit(a) => d.(attending := a)
    case MessageEdit(v) => d.(message := v)
  }

  /** `handleGuestNameChange`: slot `index` takes the value; the length and
      every other slot are unchanged, and an index out of range changes
      nothing. */
  function HandleGuestNameChange(d: RSVPFormData, index: int, value: string): (d': RSVPFormData)
    ensures |d'.guestNames| == |d.guestNames|
    ensures forall i :: 0 <= i < |d.guestNames| && i != index ==> d'.guestNames[i] == d.guestNames[i]
    ensures 0 <= index < |d.guestNames| ==> d'.guestNames[index] == value
    ensures d' == d.(guestNames := d'.guestNames)
  {
    d.(guestNames := seq(|d.guestNames|, i requires 0 <= i < |d.guestNames| =>
                           if i == index then value else d.guestNames[i]))
  }

  lemma OutOfRangeNameEditIsNoOp(d: RSVPFormData, index: int, value: string)
    requires index < 0 || index >= |d.guestNames|
    ensures HandleGuestNameChange(d, index, value) == d
  {
    assert HandleGuestNameChange(d, index, value).guestNames == d.guestNames;
  }

  /** What `saveRSVPToFirebase` did: returned a result, or threw. */
  datatype SubmitOutcome = Resolved(result: SaveResult) | Threw

  const DefaultSubmitError := "Възникна грешка при изпращане на RSVP."
  const UnexpectedSubmitError := "Неочаквана грешка. Моля, опитайте отново."

  /** The state while the save is pending. */
  function BeginSubmit(st: FormState): (st': FormState)
    ensures st'.status == Submitting && st'.errorMessage == "" && st'.data == st.data
  {
    st.(status := Submitting, errorMessage := "")
  }

  /** `handleSubmit`: success resets the form and reports success; a failed
      result reports its message (or a default for a missing or empty one);
      a thrown error reports a fixed message; on failure the form data is
      kept for another try. */
  function Submit(st: FormState, outcome: SubmitOutcome): (st': FormState)
    ensures st'.status == Success <==> outcome.Resolved? && outcome.result.success
    ensures st'.status == Success ==> st' == FormState(InitialData(), Success, "")
    ensures st'.status != Success ==> st'.status == Error && st'.data == st.data && st'.errorMessage != ""
    ensures outcome.Resolved? && !outcome.result.success ==>
              st'.errorMessage == OrElse(outcome.result.error, DefaultSubmitError)
    ensures outcome.Threw? ==> st'.errorMessage == UnexpectedSubmitError
  {
    var pending := BeginSubmit(st);
    match outcome
    case Resolved(result) =>
      if result.success then pending.(status := Success, data := InitialData())
      else pending.(status := Error, errorMessage := OrElse(result.error, DefaultSubmitError))
    case Threw => pending.(status := Error, errorMessage := UnexpectedSubmitError)
  }

  /** Every form transition keeps one companion slot per extra guest. */
  lemma TransitionsKeepWellSized(d: RSVPFormData, e: FieldEdit, index: int, value: string,
                                 st: FormState, outcome: SubmitOutcome)
    ensures WellSized(InitialData())
    ensures WellSized(d) || e.GuestsCountEdit? ==> WellSized(HandleChange(d, e))
    ensures WellSized(d) ==> WellSized(HandleGuestNameChange(d, index, value))
    ensures WellSized(st.data) ==> WellSized(Submit(st, outcome).data)
  {
  }

  /** Switching to "not attending" keeps the party size and companion names
      the guest had entered; they are still sent with the response. */
  lemma DecliningKeepsParty(d: RSVPFormData)
    ensures var d' := HandleChange(d, AttendingEdit(No));
            d'.attending == No && d'.guestsCount == d.guestsCount && d'.guestNames == d.guestNames
  {
  }

  /** Submitting in memory mode always succeeds: the form resets, and the
      store gains exactly the submitted data at its front. */
  lemma SubmitToMemoryStore(rt: Runtime, st: FormState, store: seq<RSVPRecord>,
                            id: string, createdAt: nat, addDoc: CallOutcome)
    requires UsesMemoryStore(rt)
    ensures var saved := SaveRSVP(rt, store, st.data, id, createdAt, addDoc);
            var st' := Submit(st, Resolved(saved.result));
            && st' == FormState(InitialData(), Success, "")
            && saved.store == [RSVPRecord(st.data, id, createdAt)] + store
  {
    var saved := SaveRSVP(rt, store, st.data, id, createdAt, addDoc);
    assert saved.store == [saved.store[0]] + saved.store[1..];
  }
}
