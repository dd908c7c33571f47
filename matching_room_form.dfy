/**
 * The form that opens a matching room for an event
 * (`app/protected/chatting/create_room/page.tsx`): a date picked from the
 * event's calendar, a head count, a title, an age range (or no limit) and the
 * genders sought. `validate` turns the form into a set of error keys, and the
 * create button builds the room data only when that set is empty.
 *
 * Dates are whole days, numbered from 1 January 1970.
 */
module MatchingRoomForm {
  import opened Common

  type Day = int

  /** The event the page is built around. */
  const EventId := "test"
  const EventStart: Day := 20220  // 12 May 2025
  const EventEnd: Day := 20231    // 23 May 2025
  const Holidays: seq<Day> := [20222, 20229]  // 14 and 21 May 2025

  /** A numeric input's state: `''` until a number is typed. */
  datatype NumberField = Empty | Value(n: int)

  datatype AgeLimit = AgeLimit(min: NumberField, max: NumberField, noLimit: bool)

  datatype Gender = Gender(male: bool, female: bool)

  datatype Form = Form(selectedDate: Option<Day>, personCount: NumberField, roomTitle: string, ageLimit: AgeLimit, gender: Gender)

  /** The keys `validate` may set in `newErrors`. */
  datatype ErrorKey = DateKey | TitleKey | PersonKey | AgeKey | GenderKey

  /** `roomData.ageLimit`: `{ noLimit: true }` or `{ min, max }`. */
  datatype AgeLimitData = NoLimitData | RangeData(min: NumberField, max: NumberField)

  datatype RoomData = RoomData(eventId: string, date: Day, personCount: NumberField, title: string, ageLimit: AgeLimitData, gender: Gender)

  const InitialForm := Form(None, Empty, "", AgeLimit(Empty, Empty, false), Gender(false, false))

  /** `isDateDisabled`: before the start, after the end, or on a holiday. */
  predicate IsDateDisabled(d: Day)
  {
    d < EventStart || d > EventEnd || exists k :: 0 <= k < |Holidays| && Holidays[k] == d
  }

  /** The days the calendar offers are exactly the event's days other than the
      two holidays; the first and last days are among them. */
  lemma EnabledDays()
    ensures (set d: Day | EventStart <= d <= EventEnd && !IsDateDisabled(d))
         == {20220, 20221, 20223, 20224, 20225, 20226, 20227, 20228, 20230, 20231}
    ensures !IsDateDisabled(EventStart) && !IsDateDisabled(EventEnd)
    ensures forall d: Day :: d < EventStart || d > EventEnd ==> IsDateDisabled(d)
  {
    forall d: Day | EventStart <= d <= EventEnd
      ensures IsDateDisabled(d) <==> d == 20222 || d == 20229
    {
      assert Holidays[0] == 20222 && Holidays[1] == 20229;
    }
  }

  /** The age check that runs unless `noLimit` is set: a bound is empty, or the
      minimum exceeds the maximum. */
  predicate AgeRangeInvalid(a: AgeLimit)
  {
    a.min.Empty? || a.max.Empty? || a.min.n > a.max.n
  }

  /** `validate`'s scan, filling `newErrors` one check at a time. */
  method FormErrors(f: Form) returns (newErrors: set<ErrorKey>)
    ensures DateKey in newErrors <==> f.selectedDate.None?
    ensures TitleKey in newErrors <==> f.roomTitle == ""
    ensures PersonKey in newErrors <==> f.personCount.Empty? || f.personCount.n < 2
    ensures AgeKey in newErrors <==> !f.ageLimit.noLimit && AgeRangeInvalid(f.ageLimit)
    ensures GenderKey in newErrors <==> !f.gender.male && !f.gender.female
  {
    newErrors := {};
    if f.selectedDate.None? {
      newErrors := newErrors + {DateKey};
    }
    if f.roomTitle == "" {
      newErrors := newErrors + {TitleKey};
    }
    // `!personCount || personCount < 2`: '' and 0 are falsy, 1 is below 2.
    if f.personCount.Empty? || f.personCount.n == 0 || f.personCount.n < 2 {
      newErrors := newErrors + {PersonKey};
    }
    if !f.ageLimit.noLimit {
      if f.ageLimit.min.Empty? || f.ageLimit.max.Empty? || f.ageLimit.min.n > f.ageLimit.max.n {
        newErrors := newErrors + {AgeKey};
      }
    }
    if !f.gender.male && !f.gender.female {
      newErrors := newErrors + {GenderKey};
    }
  }

  /** A form that `validate` lets through: none of its five checks fails. */
  predicate Passes(f: Form)
  {
    && f.selectedDate.Some?
    && f.roomTitle != ""
    && f.personCount.Value? && f.personCount.n >= 2
    && (f.ageLimit.noLimit || !AgeRangeInvalid(f.ageLimit))
    && (f.gender.male || f.gender.female)
  }

  /** The age data `handleCreate` puts into `roomData`. */
  function AgeLimitOf(a: AgeLimit): (d: AgeLimitData)
    ensures a.noLimit <==> d.NoLimitData?
    ensures !a.noLimit ==> d.min == a.min && d.max == a.max
  {
    if a.noLimit then NoLimitData else RangeData(a.min, a.max)
  }

  /** The "X" button: flips `noLimit` and keeps both bounds. */
  function ToggleNoLimit(a: AgeLimit): (r: AgeLimit)
    ensures r.noLimit != a.noLimit
    ensures r.min == a.min && r.max == a.max
  {
    a.(noLimit := !a.noLimit)
  }

  /** The male button: flips `male` and keeps `female`. */
  function ToggleMale(g: Gender): (r: Gender)
    ensures r.male != g.male && r.female == g.female
  {
    g.(male := !g.male)
  }

  /** The female button: flips `female` and keeps `male`. */
  function ToggleFemale(g: Gender): (r: Gender)
    ensures r.female != g.female && r.male == g.male
  {
    g.(female := !g.female)
  }

  class CreateRoomPage {
    var form: Form
    var errors: set<ErrorKey>
    var calendarOpen: bool

    /** The calendar never yields a disabled day. */
    ghost predicate Valid()
      reads this
    {
      form.selectedDate.Some? ==> !IsDateDisabled(form.selectedDate.value)
    }

    constructor ()
      ensures Valid()
      ensures form == InitialForm && errors == {} && !calendarOpen
    {
      form, errors, calendarOpen := InitialForm, {}, false;
    }

    /** Clicking the date input toggles the calendar. */
    method ToggleCalendar()
      modifies this`calendarOpen
      ensures calendarOpen == !old(calendarOpen)
    {
      calendarOpen := !calendarOpen;
    }

    /** The calendar's `onSelect`: only enabled days can be picked; picking the
        selected day again clears it. */
    method SelectDate(d: Option<Day>)
      requires Valid()
      requires d.Some? ==> !IsDateDisabled(d.value)
      modifies this`form, this`calendarOpen
      ensures Valid()
      ensures form == old(form).(selectedDate := d) && !calendarOpen
    {
      form := form.(selectedDate := d);
      calendarOpen := false;
    }

    method SetPersonCount(v: NumberField)
      requires Valid()
      modifies this`form
      ensures Valid() && form == old(form).(personCount := v)
    {
      form := form.(personCount := v);
    }

    method SetRoomTitle(v: string)
      requires Valid()
      modifies this`form
      ensures Valid() && form == old(form).(roomTitle := v)
    {
      form := form.(roomTitle := v);
    }

    method SetMinAge(v: NumberField)
      requires Valid()
      modifies this`form
      ensures Valid() && form == old(form).(ageLimit := old(form).ageLimit.(min := v))
    {
      form := form.(ageLimit := form.ageLimit.(min := v));
    }

    method SetMaxAge(v: NumberField)
      requires Valid()
      modifies this`form
      ensures Valid() && form == old(form).(ageLimit := old(form).ageLimit.(max := v))
    {
      form := form.(ageLimit := form.ageLimit.(max := v));
    }

    method PressNoLimit()
      requires Valid()
      modifies this`form
      ensures Valid() && form == old(form).(ageLimit := ToggleNoLimit(old(form).ageLimit))
    {
      form := form.(ageLimit := ToggleNoLimit(form.ageLimit));
    }

    method PressMale()
      requires Valid()
      modifies this`form
      ensures Valid() && form == old(form).(gender := ToggleMale(old(form).gender))
    {
      form := form.(gender := ToggleMale(form.gender));
    }

    method PressFemale()
      requires Valid()
      modifies this`form
      ensures Valid() && form == old(form).(gender := ToggleFemale(old(form).gender))
    {
      form := form.(gender := ToggleFemale(form.gender));
    }

    /** `validate`: stores the error keys and reports whether there are none. */
    method Validate() returns (ok: bool)
      requires Valid()
      modifies this`errors
      ensures Valid()
      ensures ok <==> errors == {}
      ensures DateKey in errors <==> form.selectedDate.None?
      ensures TitleKey in errors <==> form.roomTitle == ""
      ensures PersonKey in errors <==> form.personCount.Empty? || form.personCount.n < 2
      ensures AgeKey in errors <==> !form.ageLimit.noLimit && AgeRangeInvalid(form.ageLimit)
      ensures GenderKey in errors <==> !form.gender.male && !form.gender.female
    {
      var newErrors := FormErrors(form);
      errors := newErrors;
      ok := |newErrors| == 0;
    }

    /** `handleCreate`: nothing but the error keys changes when validation fails;
        otherwise the room data is built and the page moves to the event. */
    method HandleCreate() returns (roomData: Option<RoomData>, navigateTo: Option<string>)
      requires Valid()
      modifies this`errors
      ensures Valid()
      ensures DateKey in errors <==> form.selectedDate.None?
      ensures TitleKey in errors <==> form.roomTitle == ""
      ensures PersonKey in errors <==> form.personCount.Empty? || form.personCount.n < 2
      ensures AgeKey in errors <==> !form.ageLimit.noLimit && AgeRangeInvalid(form.ageLimit)
      ensures GenderKey in errors <==> !form.gender.male && !form.gender.female
      ensures roomData.Some? <==> Passes(form)
      ensures roomData.None? <==> errors != {}
      ensures roomData.None? ==> navigateTo.None?
      ensures roomData.Some? ==>
        && form.selectedDate.Some?
        && roomData.value == RoomData(EventId, form.selectedDate.value, form.personCount, form.roomTitle,
                                      AgeLimitOf(form.ageLimit), form.gender)
        && !IsDateDisabled(roomData.value.date)
        && roomData.value.personCount.Value? && roomData.value.personCount.n >= 2
        && roomData.value.title != ""
        && (roomData.value.gender.male || roomData.value.gender.female)
        && (roomData.value.ageLimit.RangeData? ==>
              roomData.value.ageLimit.min.Value? && roomData.value.ageLimit.max.Value?
              && roomData.value.ageLimit.min.n <= roomData.value.ageLimit.max.n)
        && navigateTo == Some("/protected/events/" + EventId)
    {
      var ok := Validate();
      if !ok {
        assert !Passes(form) by {
          var k :| k in errors;
          assert k == DateKey || k == TitleKey || k == PersonKey || k == AgeKey || k == GenderKey;
        }
        return None, None;
      }
      roomData := Some(RoomData(EventId, form.selectedDate.value, form.personCount, form.roomTitle,
                                AgeLimitOf(form.ageLimit), form.gender));
      navigateTo := Some("/protected/events/" + EventId);
    }
  }
}
