/** The add form of src/AddHabitForm.tsx: its two input fields, the URL normalisation,
    and `handleAddHabit`, which adds a habit only when the name is not blank. */
module AddHabitForm {
  import opened Text
  import opened Calendar
  import opened HabitContext

  const Http: string := "http://"
  const Https: string := "https://"

  /** The URL as `handleAddHabit` formats it: trimmed, and given the `http://` scheme
      when it is non-empty and has neither `http://` nor `https://`. The result is
      always empty or carries one of the two schemes, and is in trim's normal form. */
  function NormalizeUrl(raw: string): (r: string)
    ensures r == "" <==> AllSpace(raw)
    ensures r == "" || StartsWith(r, Http) || StartsWith(r, Https)
    ensures IsTrimmed(r)
  {
    var t := Trim(raw);
    if t != "" && !StartsWith(t, Http) && !StartsWith(t, Https) then
      HttpPrefixed(t);
      Http + t
    else
      t
  }

  /** Putting `http://` in front of a non-empty trimmed URL gives a trimmed URL with
      that scheme. */
  lemma HttpPrefixed(t: string)
    requires t != "" && IsTrimmed(t)
    ensures StartsWith(Http + t, Http) && IsTrimmed(Http + t)
  {
    PrefixedStartsWith(Http, t);
    PrefixedTrimmed(Http, t);
  }

  /** A URL that trims to nothing normalises to the empty string, with no scheme. */
  lemma NormalizeBlankUrl(raw: string)
    requires AllSpace(raw)
    ensures NormalizeUrl(raw) == ""
  {
  }

  /** A trimmed URL that already has a scheme is kept as it is; any other non-empty
      trimmed URL gets exactly `http://` in front. */
  lemma NormalizeUrlCases(raw: string)
    ensures var t := Trim(raw);
      && (StartsWith(t, Http) || StartsWith(t, Https) ==> NormalizeUrl(raw) == t)
      && (t != "" && !StartsWith(t, Http) && !StartsWith(t, Https) ==> NormalizeUrl(raw) == Http + t)
  {
  }

  /** Normalising a normalised URL changes nothing. */
  lemma NormalizeUrlIdempotent(raw: string)
    ensures NormalizeUrl(NormalizeUrl(raw)) == NormalizeUrl(raw)
  {
    TrimOfTrimmed(NormalizeUrl(raw));
  }

  /** The first lines of `handleAddHabit`: the local `formattedUrl` starts as the
      trimmed field and is reassigned when it needs a scheme. */
  method FormatUrl(newUrl: string) returns (formattedUrl: string)
    ensures formattedUrl == NormalizeUrl(newUrl)
  {
    formattedUrl := Trim(newUrl);
    if formattedUrl != "" && !StartsWith(formattedUrl, Http) && !StartsWith(formattedUrl, Https) {
      formattedUrl := Http + formattedUrl;
    }
  }

  /** The form's two input fields, and the store whose `addHabit` it calls. */
  class Form {
    var newHabit: string
    var newUrl: string
    const store: HabitStore

    constructor (store: HabitStore)
      ensures this.store == store && newHabit == "" && newUrl == ""
    {
      this.store := store;
      newHabit := "";
      newUrl := "";
    }

    /** `handleAddHabit`: a blank name leaves the store and both fields as they were;
        otherwise one habit with the trimmed name and the normalised URL is appended
        and both fields are cleared. */
    method HandleAddHabit(id: int, now: Timestamp)
      modifies this, store
      ensures Trim(old(newHabit)) == "" ==>
        newHabit == old(newHabit) && newUrl == old(newUrl) && store.habits == old(store.habits)
      ensures Trim(old(newHabit)) != "" ==>
        && newHabit == "" && newUrl == ""
        && store.habits == old(store.habits)
             + [Habit(id, Trim(old(newHabit)), NormalizeUrl(old(newUrl)), [], now, 0)]
    {
      var formattedUrl := FormatUrl(newUrl);
      if Trim(newHabit) != "" {
        TrimOfTrimmed(formattedUrl);
        store.AddHabit(newHabit, Trim(formattedUrl), id, now);
        newHabit := "";
        newUrl := "";
      }
    }
  }
}
