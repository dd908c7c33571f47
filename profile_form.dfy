/**
 * The profile form (`components/account/profileForm.tsx`): it is filled from
 * the user's `user_details` row when one is found, edited one field at a time,
 * and submitted as an update of the existing row or an insert of a new one.
 *
 * The store's answers are parameters; the row's `date_of_birth` arrives already
 * split into year, month and day, and the current year is given by the caller.
 */
module ProfileForm {
  import opened Common

  datatype FormData = FormData(
    fullName: string, gender: string, phoneNumber: string,
    birthYear: string, birthMonth: string, birthDay: string,
    marketingConsent: bool)

  /** The text inputs wired to `handleChange`, by their `name` attribute. */
  datatype TextField = FullName | PhoneNumber | BirthYear | BirthMonth | BirthDay

  /** A calendar date as `getFullYear`, `getMonth() + 1` and `getDate` give it. */
  datatype CalendarDate = CalendarDate(year: nat, month: nat, day: nat)

  /** A `user_details` row; `None` is a null column. */
  datatype UserDetailsRow = UserDetailsRow(
    fullName: Option<string>, gender: Option<string>, phoneNumber: Option<string>,
    dateOfBirth: Option<CalendarDate>, marketingConcern: Option<bool>)

  /** The answer to the mount-time fetch. */
  datatype RowFetch = RowFetchError | NoRow | GotRow(row: UserDetailsRow)

  /** What the existence lookup at submit time tells the handler: an error,
      a row (`existingUser` set), or no row and no error. */
  datatype Lookup = LookupFailed | RowExists | RowMissing

  /** The rows with the user's `ref_id`, before the client shapes the answer,
      or a failure of the query itself. */
  datatype RefIdRows = QueryFailed | MatchingRows(count: nat)

  /** `.single()`: anything but exactly one row is answered with an error. */
  function Single(rows: RefIdRows): (l: Lookup)
    ensures l.RowExists? <==> rows == MatchingRows(1)
    ensures l.LookupFailed? <==> rows != MatchingRows(1)
    ensures !l.RowMissing?
  {
    if rows == MatchingRows(1) then RowExists else LookupFailed
  }

  /** `.maybeSingle()`: no row is answered with `data: null` and no error;
      several rows are still an error. */
  function MaybeSingle(rows: RefIdRows): (l: Lookup)
    ensures l.RowExists? <==> rows == MatchingRows(1)
    ensures l.RowMissing? <==> rows == MatchingRows(0)
    ensures l.LookupFailed? <==> rows.QueryFailed? || rows.count > 1
  {
    match rows
    case QueryFailed => LookupFailed
    case MatchingRows(n) => if n == 0 then RowMissing else if n == 1 then RowExists else LookupFailed
  }

  /** The columns written on submit. */
  datatype ProfileValues = ProfileValues(fullName: string, gender: string, phoneNumber: string, dateOfBirth: string, marketingConcern: bool)

  /** The write submit performs: an update keyed by `ref_id`, or an insert that sets `user_id`. */
  datatype ProfileWrite = UpdateByRefId(refId: string, values: ProfileValues) | InsertWithUserId(userId: string, values: ProfileValues)

  const UpdatedMessage := "Profile updated successfully!"
  const CreatedMessage := "Profile created successfully!"
  const FailedMessage := "Failed to update profile. Please try again."

  function InitialForm(currentYear: nat): FormData
  {
    FormData("", "", "", NatToDecimal(currentYear), "1", "1", false)
  }

  /** `${birthYear}-${birthMonth.padStart(2, '0')}-${birthDay.padStart(2, '0')}`. */
  function DateOfBirth(f: FormData): (dob: string)
    ensures |dob| == |f.birthYear| + 1 + |PadStart(f.birthMonth, 2, '0')| + 1 + |PadStart(f.birthDay, 2, '0')|
    ensures dob[..|f.birthYear|] == f.birthYear && dob[|f.birthYear|] == '-'
  {
    f.birthYear + "-" + PadStart(f.birthMonth, 2, '0') + "-" + PadStart(f.birthDay, 2, '0')
  }

  /** A one-character month or day gets a leading '0'; a longer one is kept whole. */
  lemma PadKeepsLongParts(s: string)
    ensures |s| == 1 ==> PadStart(s, 2, '0') == "0" + s
    ensures |s| >= 2 ==> PadStart(s, 2, '0') == s
    ensures s == "" ==> PadStart(s, 2, '0') == "00"
  {
    if |s| == 1 {
      var r := PadStart(s, 2, '0');
      assert r == [r[0]] + r[1..];
    }
  }

  /** The two-digit spelling of a number below 100, tens first; it reads back
      as the number. */
  function TwoDigits(n: nat): (r: string)
    requires n < 100
    ensures |r| == 2 && AllDigits(r) && DecimalValue(r) == n
  {
    var tens := [DigitChar(n / 10)];
    assert DecimalValue(tens) == n / 10 by { assert tens[..0] == []; }
    var r := tens + [DigitChar(n % 10)];
    assert r[..|r| - 1] == tens;
    r
  }

  /** A month or day below 100, written by `toString` and padded to two places,
      is its two-digit spelling. */
  lemma TwoDigitPart(n: nat)
    requires n < 100
    ensures PadStart(NatToDecimal(n), 2, '0') == TwoDigits(n)
  {
    var m := NatToDecimal(n);
    if n >= 10 {
      assert NatToDecimal(n / 10) == [DigitChar(n / 10)];
      assert m == [DigitChar(n / 10)] + [DigitChar(n % 10)];
      PadKeepsLongParts(m);
    } else {
      PadKeepsLongParts(m);
      assert DigitChar(0) == '0';
    }
  }

  /** For a form filled with natural numbers (month and day below 100), the date
      of birth is `year-MM-DD` with the two-digit spellings of month and day. */
  lemma DateOfBirthReadsBack(year: nat, month: nat, day: nat, f: FormData)
    requires month < 100 && day < 100
    requires f.birthYear == NatToDecimal(year) && f.birthMonth == NatToDecimal(month) && f.birthDay == NatToDecimal(day)
    ensures DateOfBirth(f) == f.birthYear + "-" + TwoDigits(month) + "-" + TwoDigits(day)
  {
    TwoDigitPart(month);
    TwoDigitPart(day);
  }

  /** The form as filled from a fetched row: null columns become "" (or `false`),
      and a missing date of birth gives 1 January of the current year. */
  function Populated(row: UserDetailsRow, currentYear: nat): (f: FormData)
    ensures f.fullName == (if row.fullName.Some? then row.fullName.value else "")
    ensures f.gender == (if row.gender.Some? then row.gender.value else "")
    ensures f.phoneNumber == (if row.phoneNumber.Some? then row.phoneNumber.value else "")
    ensures row.dateOfBirth.None? ==> f.birthYear == NatToDecimal(currentYear) && f.birthMonth == "1" && f.birthDay == "1"
    ensures row.dateOfBirth.Some? ==>
      && f.birthYear == NatToDecimal(row.dateOfBirth.value.year)
      && f.birthMonth == NatToDecimal(row.dateOfBirth.value.month)
      && f.birthDay == NatToDecimal(row.dateOfBirth.value.day)
    ensures f.marketingConsent == (row.marketingConcern == Some(true))
  {
    FormData(
      match row.fullName case Some(s) => s case None => "",
      match row.gender case Some(s) => s case None => "",
      match row.phoneNumber case Some(s) => s case None => "",
      match row.dateOfBirth case Some(d) => NatToDecimal(d.year) case None => NatToDecimal(currentYear),
      match row.dateOfBirth case Some(d) => NatToDecimal(d.month) case None => "1",
      match row.dateOfBirth case Some(d) => NatToDecimal(d.day) case None => "1",
      match row.marketingConcern case Some(b) => b case None => false)
  }

  /** The columns a submit writes. */
  function ValuesOf(f: FormData): ProfileValues
  {
    ProfileValues(f.fullName, f.gender, f.phoneNumber, DateOfBirth(f), f.marketingConsent)
  }

  /** The banner is green when the message contains "success". */
  predicate IsSuccessBanner(message: string)
  {
    Contains(message, "success")
  }

  /** Both success messages give a green banner and the failure message a red one. */
  lemma BannerColours()
    ensures IsSuccessBanner(UpdatedMessage) && IsSuccessBanner(CreatedMessage)
    ensures !IsSuccessBanner(FailedMessage)
  {
    assert OccursAt(UpdatedMessage, "success", 16);
    assert OccursAt(CreatedMessage, "success", 16);
    // The failure message has no 'c', and "success" has one at index 2.
    assert forall k :: 0 <= k < |FailedMessage| ==> FailedMessage[k] != 'c';
    forall i | 0 <= i ensures !OccursAt(FailedMessage, "success", i) {
      if i + 7 <= |FailedMessage| {
        assert FailedMessage[i..i + 7][2] == FailedMessage[i + 2];
      }
    }
  }

  class ProfileFormView {
    const userId: string
    var formData: FormData
    var isSubmitting: bool
    var submitMessage: string

    constructor (userId: string, currentYear: nat)
      ensures this.userId == userId
      ensures formData == InitialForm(currentYear) && !isSubmitting && submitMessage == ""
    {
      this.userId := userId;
      formData := InitialForm(currentYear);
      isSubmitting, submitMessage := false, "";
    }

    /** The mount effect: with a user id, a fetched row fills the form; an error
        or an absent row leaves it. */
    method Load(fetch: RowFetch, currentYear: nat)
      modifies this`formData
      ensures userId != "" && fetch.GotRow? ==> formData == Populated(fetch.row, currentYear)
      ensures !(userId != "" && fetch.GotRow?) ==> formData == old(formData)
    {
      if userId != "" && fetch.GotRow? {
        formData := Populated(fetch.row, currentYear);
      }
    }

    /** `handleChange`: only the named field changes. */
    method HandleChange(field: TextField, value: string)
      modifies this`formData
      ensures formData == match field
        case FullName => old(formData).(fullName := value)
        case PhoneNumber => old(formData).(phoneNumber := value)
        case BirthYear => old(formData).(birthYear := value)
        case BirthMonth => old(formData).(birthMonth := value)
        case BirthDay => old(formData).(birthDay := value)
    {
      match field {
        case FullName => formData := formData.(fullName := value);
        case PhoneNumber => formData := formData.(phoneNumber := value);
        case BirthYear => formData := formData.(birthYear := value);
        case BirthMonth => formData := formData.(birthMonth := value);
        case BirthDay => formData := formData.(birthDay := value);
      }
    }

    /** `handleGenderSelect`: only `gender` changes. */
    method HandleGenderSelect(gender: string)
      modifies this`formData
      ensures formData == old(formData).(gender := gender)
    {
      formData := formData.(gender := gender);
    }

    /** `handleMarketingConsentChange`: only `marketingConsent` changes. */
    method HandleMarketingConsentChange(checked: bool)
      modifies this`formData
      ensures formData == old(formData).(marketingConsent := checked)
    {
      formData := formData.(marketingConsent := checked);
    }

    /** `handleSubmit` once the lookup has answered: a failed lookup writes
        nothing; an existing row is updated by `ref_id`, a missing one inserted;
        any failure ends in the same message, and `isSubmitting` is cleared on
        every path. */
    method Submit(lookup: Lookup, writeFails: bool) returns (write: Option<ProfileWrite>)
      modifies this`isSubmitting, this`submitMessage
      ensures !isSubmitting
      ensures lookup.LookupFailed? ==> write.None? && submitMessage == FailedMessage
      ensures lookup.RowExists? ==> write == Some(UpdateByRefId(userId, ValuesOf(formData)))
      ensures lookup.RowMissing? ==> write == Some(InsertWithUserId(userId, ValuesOf(formData)))
      ensures lookup.RowExists? ==> submitMessage == if writeFails then FailedMessage else UpdatedMessage
      ensures lookup.RowMissing? ==> submitMessage == if writeFails then FailedMessage else CreatedMessage
      ensures IsSuccessBanner(submitMessage) <==> !lookup.LookupFailed? && !writeFails
    {
      isSubmitting := true;
      submitMessage := "";
      var dob := DateOfBirth(formData);
      var values := ProfileValues(formData.fullName, formData.gender, formData.phoneNumber, dob, formData.marketingConsent);
      match lookup {
        case LookupFailed =>
          write := None;
          submitMessage := FailedMessage;
        case RowExists =>
          write := Some(UpdateByRefId(userId, values));
          submitMessage := if writeFails then FailedMessage else UpdatedMessage;
        case RowMissing =>
          write := Some(InsertWithUserId(userId, values));
          submitMessage := if writeFails then FailedMessage else CreatedMessage;
      }
      assert submitMessage in {FailedMessage, UpdatedMessage, CreatedMessage};
      assert IsSuccessBanner(submitMessage) <==> submitMessage != FailedMessage by {
        BannerColours();
      }
      isSubmitting := false;
    }

    /** `handleSubmit` as written, with the lookup made by `.single()`: a user
        without a row gets the lookup's error, so nothing is inserted and the
        failure message is shown. */
    method HandleSubmit(rows: RefIdRows, writeFails: bool) returns (write: Option<ProfileWrite>)
      modifies this`isSubmitting, this`submitMessage
      ensures !isSubmitting
      ensures rows == MatchingRows(1) ==>
        && write == Some(UpdateByRefId(userId, ValuesOf(formData)))
        && submitMessage == if writeFails then FailedMessage else UpdatedMessage
      ensures rows != MatchingRows(1) ==> write.None? && submitMessage == FailedMessage
      ensures forall v :: write != Some(InsertWithUserId(userId, v))
      ensures IsSuccessBanner(submitMessage) <==> rows == MatchingRows(1) && !writeFails
    {
      write := Submit(Single(rows), writeFails);
    }

    /** `handleSubmit` with the lookup made by `.maybeSingle()`: a user without a
        row reaches the insert, as the handler's insert branch intends. */
    method HandleSubmitMaybeSingle(rows: RefIdRows, writeFails: bool) returns (write: Option<ProfileWrite>)
      modifies this`isSubmitting, this`submitMessage
      ensures !isSubmitting
      ensures rows == MatchingRows(1) ==>
        && write == Some(UpdateByRefId(userId, ValuesOf(formData)))
        && submitMessage == if writeFails then FailedMessage else UpdatedMessage
      ensures rows == MatchingRows(0) ==>
        && write == Some(InsertWithUserId(userId, ValuesOf(formData)))
        && submitMessage == if writeFails then FailedMessage else CreatedMessage
      ensures rows.QueryFailed? || rows.count > 1 ==> write.None? && submitMessage == FailedMessage
      ensures IsSuccessBanner(submitMessage) <==> (rows == MatchingRows(0) || rows == MatchingRows(1)) && !writeFails
    {
      write := Submit(MaybeSingle(rows), writeFails);
    }
  }

  /** A concrete scenario of the handler as written: a new user with no row
      submits, and no row is written and the failure message is shown. */
  method NewUserScenario() returns (written: bool, message: string)
    ensures !written && message == FailedMessage
  {
    var view := new ProfileFormView("u", 2025);
    var write := view.HandleSubmit(MatchingRows(0), false);
    written, message := write.Some?, view.submitMessage;
  }

  /** The same scenario with `.maybeSingle()`: the row is inserted and the
      creation message is shown. */
  method NewUserScenarioMaybeSingle() returns (inserted: bool, message: string)
    ensures inserted && message == CreatedMessage
  {
    var view := new ProfileFormView("u", 2025);
    var write := view.HandleSubmitMaybeSingle(MatchingRows(0), false);
    inserted, message := write.Some? && write.value.InsertWithUserId?, view.submitMessage;
  }
}
