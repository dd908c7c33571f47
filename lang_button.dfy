/**
 * The language toggle (`components/button.tsx`): on mount it reads the
 * `NEXT_LOCALE` entry of `document.cookie`; a click flips between "en" and
 * "kor", writes the cookie and reloads the page.
 *
 * `document.cookie` is a parameter when read and a returned string when
 * written; the reload is the caller's.
 */
module LangButton {
  import opened Common
  import I18nRequest

  const EntryPrefix := "NEXT_LOCALE="
  const EntrySeparator := "; "

  /** `rows.find(row => row.startsWith('NEXT_LOCALE='))`, as the index found. */
  function FindEntry(rows: seq<string>): (k: Option<nat>)
    ensures k.Some? ==> k.value < |rows| && StartsWith(rows[k.value], EntryPrefix)
    ensures k.Some? ==> forall j :: 0 <= j < k.value ==> !StartsWith(rows[j], EntryPrefix)
    ensures k.None? ==> forall j :: 0 <= j < |rows| ==> !StartsWith(rows[j], EntryPrefix)
  {
    if rows == [] then None
    else if StartsWith(rows[0], EntryPrefix) then Some(0)
    else
      match FindEntry(rows[1..])
      case None => None
      case Some(k) => Some(k + 1)
  }

  /** `row.split('=')[1]` for a row that starts with `NEXT_LOCALE=`. */
  function EntryValue(row: string): (v: string)
    requires StartsWith(row, EntryPrefix)
    ensures !Contains(v, "=")
  {
    assert OccursAt(row, "=", 11);
    Split(row, "=")[1]
  }

  /** In a row that starts with `NEXT_LOCALE=`, the first '=' is the one ending the name. */
  lemma FirstEqualsAfterName(row: string)
    requires StartsWith(row, EntryPrefix)
    ensures IndexOf(row, "=") == Some(11)
  {
    assert row[..12] == EntryPrefix;
    assert forall k :: 0 <= k < 11 ==> EntryPrefix[k] != '=';
    forall j | 0 <= j < 11 ensures !OccursAt(row, "=", j) {
      assert row[..12][j] == row[j];
      assert row[j..j + 1][0] == row[j];
    }
    assert row[11..12][0] == row[..12][11];
    IndexOfFirst(row, "=", 11);
  }

  /** The value read is the text after `NEXT_LOCALE=` up to the next '=' (or the end). */
  lemma EntryValueBetweenEquals(row: string)
    requires StartsWith(row, EntryPrefix)
    ensures var v := EntryValue(row);
      && 12 + |v| <= |row| && row[12..12 + |v|] == v
      && '=' !in v
      && (12 + |v| == |row| || row[12 + |v|] == '=')
  {
    FirstEqualsAfterName(row);
    var rest := row[12..];
    assert Split(row, "=") == [row[..11]] + Split(rest, "=");
    SplitFirst(rest, "=");
    var v := Split(rest, "=")[0];
    assert v == EntryValue(row);
    assert !Contains(v, "=");
    forall i | 0 <= i < |v| ensures v[i] != '=' {
      assert !OccursAt(v, "=", i);
      assert v[i..i + 1] == [v[i]];
    }
    assert row[12..12 + |v|] == rest[..|v|];
    if |v| < |rest| {
      assert OccursAt(rest, "=", |v|);
      assert row[12 + |v|] == rest[|v|] == rest[|v|..|v| + 1][0];
    }
  }

  /** The mount-time read: the first `NEXT_LOCALE=` entry's value, if any. */
  function CookieLocale(cookie: string): (r: Option<string>)
    ensures r.Some? <==> FindEntry(Split(cookie, EntrySeparator)).Some?
    ensures r.Some? ==> r.value == EntryValue(Split(cookie, EntrySeparator)[FindEntry(Split(cookie, EntrySeparator)).value])
  {
    var rows := Split(cookie, EntrySeparator);
    match FindEntry(rows)
    case None => None
    case Some(k) => Some(EntryValue(rows[k]))
  }

  /** The entry `NEXT_LOCALE=v` with no '=' in `v` has the value `v`. */
  lemma EntryValueOfPlainValue(v: string)
    requires '=' !in v
    ensures StartsWith(EntryPrefix + v, EntryPrefix) && EntryValue(EntryPrefix + v) == v
  {
    var row := EntryPrefix + v;
    assert row[..12] == EntryPrefix;
    EntryValueBetweenEquals(row);
    var w := EntryValue(row);
    assert row[12..] == v;
  }

  /** A cookie string made of `; `-separated entries, whose first `NEXT_LOCALE`
      entry holds a value without '=', reads back as that value. */
  lemma ReadsBackEntry(rows: seq<string>, k: nat, v: string)
    requires |rows| >= 1 && k < |rows|
    requires forall i :: 0 <= i < |rows| ==> !Contains(rows[i], EntrySeparator)
    requires rows[k] == EntryPrefix + v && '=' !in v
    requires forall j :: 0 <= j < k ==> !StartsWith(rows[j], EntryPrefix)
    ensures CookieLocale(Join(rows, EntrySeparator)) == Some(v)
  {
    SplitJoin(rows, EntrySeparator);
    EntryValueOfPlainValue(v);
    FindEntryFirst(rows, k);
  }

  /** `find` returns the first row that matches. */
  lemma {:induction false} FindEntryFirst(rows: seq<string>, k: nat)
    requires k < |rows| && StartsWith(rows[k], EntryPrefix)
    requires forall j :: 0 <= j < k ==> !StartsWith(rows[j], EntryPrefix)
    ensures FindEntry(rows) == Some(k)
  {
    if k > 0 {
      assert rows[1..][k - 1] == rows[k];
      forall j | 0 <= j < k - 1 ensures !StartsWith(rows[1..][j], EntryPrefix) {
        assert rows[1..][j] == rows[j + 1];
      }
      FindEntryFirst(rows[1..], k - 1);
    }
  }

  /** `locale === 'en' ? 'kor' : 'en'`. */
  function Toggled(locale: string): (r: string)
    ensures r in I18nRequest.SupportedLocales
    ensures locale == "en" ==> r == "kor"
    ensures locale != "en" ==> r == "en"
  {
    if locale == "en" then "kor" else "en"
  }

  /** On a supported locale, toggling twice gives it back. */
  lemma ToggleInvolution(locale: string)
    requires locale in I18nRequest.SupportedLocales
    ensures Toggled(Toggled(locale)) == locale
  {
  }

  /** The cookie string `toggleLocale` assigns. */
  function WrittenCookie(locale: string): (c: string)
    ensures StartsWith(c, EntryPrefix + locale)
    ensures c[|EntryPrefix| + |locale|..] == "; path=/"
  {
    EntryPrefix + locale + "; path=/"
  }

  /** After a toggle the browser holds `NEXT_LOCALE=<new>`: read back by the
      button it gives the new locale, and the server selects the same one. */
  lemma ToggleIsReadBack(locale: string)
    ensures CookieLocale(EntryPrefix + Toggled(locale)) == Some(Toggled(locale))
    ensures I18nRequest.GetRequestConfig(Some(Toggled(locale))).locale == Toggled(locale)
  {
    var v := Toggled(locale);
    assert forall i :: 0 <= i < |v| ==> v[i] != '=';
    assert !Contains(EntryPrefix + v, EntrySeparator) by {
      var row := EntryPrefix + v;
      forall j | 0 <= j ensures !OccursAt(row, EntrySeparator, j) {
        if j + 2 <= |row| {
          assert row[j] != ';';
        }
      }
    }
    ReadsBackEntry([EntryPrefix + v], 0, v);
  }

  class LangButtonView {
    var locale: string

    constructor ()
      ensures locale == "en"
    {
      locale := "en";
    }

    /** The mount effect: a non-empty cookie value replaces the locale; an absent
        entry or an empty value leaves it. */
    method Mount(cookie: string)
      modifies this`locale
      ensures CookieLocale(cookie).Some? && CookieLocale(cookie).value != "" ==> locale == CookieLocale(cookie).value
      ensures !(CookieLocale(cookie).Some? && CookieLocale(cookie).value != "") ==> locale == old(locale)
    {
      var cookieLocale := CookieLocale(cookie);
      if cookieLocale.Some? && cookieLocale.value != "" {
        locale := cookieLocale.value;
      }
    }

    /** `toggleLocale`: the cookie written and the new state carry the same locale. */
    method ToggleLocale() returns (documentCookie: string)
      modifies this`locale
      ensures locale == Toggled(old(locale))
      ensures documentCookie == WrittenCookie(locale)
    {
      var newLocale := if locale == "en" then "kor" else "en";
      documentCookie := EntryPrefix + newLocale + "; path=/";
      locale := newLocale;
    }

    /** The button's text: an offer of Korean while the locale is "en", of English otherwise. */
    function Label(): (s: string)
      reads this
      ensures s == "한국어로 변경" <==> locale == "en"
      ensures s == "Switch to English" <==> locale != "en"
    {
      if locale == "en" then "한국어로 변경" else "Switch to English"
    }
  }
}
