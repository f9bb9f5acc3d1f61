/**
 * Translation of an English weekday name into Norwegian (`Norwegify`).
 * The host formats "today" with the nb-NO culture, but in a culture-invariant
 * container that yields the English name; `Norwegify` maps it back.
 */
module DayNames {
  import opened Text

  /** The seven names the switch recognises, in the order of the week. */
  const EnglishDays: seq<string> :=
    ["monday", "tuesday", "wednesday", "thursday", "friday", "saturday", "sunday"]

  /** The Norwegian name at the same position as its English counterpart. */
  const NorwegianDays: seq<string> :=
    ["mandag", "tirsdag", "onsdag", "torsdag", "fredag", "lørdag", "søndag"]

  /** What the switch compares against: the name lowered, then trimmed. */
  function Normalize(day: string): (r: string)
    ensures IsLowerCase(r) && IsTrimmed(r)
    ensures IsLowerCase(day) && IsTrimmed(day) ==> r == day
  {
    Trim(Lower(day))
  }

  /** Lowers and trims `day`, then replaces an English weekday by the
      Norwegian one; any other name comes back lowered and trimmed. */
  function Norwegify(day: string): (r: string)
    ensures IsLowerCase(r) && IsTrimmed(r)
  {
    var d := Normalize(day);
    DaySwitchKeepsNormal(d);
    DaySwitch(d)
  }

  /** The switch expression of `Norwegify`, written as a chain of comparisons:
      the English name at position `i` becomes the Norwegian name at `i`, and
      any other name is returned as it is. */
  function DaySwitch(d: string): (r: string)
    ensures forall i :: 0 <= i < |EnglishDays| && d == EnglishDays[i] ==> r == NorwegianDays[i]
    ensures d !in EnglishDays ==> r == d
  {
    if d == "monday" then "mandag"
    else if d == "tuesday" then "tirsdag"
    else if d == "wednesday" then "onsdag"
    else if d == "thursday" then "torsdag"
    else if d == "friday" then "fredag"
    else if d == "saturday" then "lørdag"
    else if d == "sunday" then "søndag"
    else d
  }

  /** The Norwegian names are already lower case and trimmed. */
  lemma NorwegianNameIsNormal(s: string)
    requires s in NorwegianDays
    ensures IsLowerCase(s) && IsTrimmed(s)
  {
    var i :| 0 <= i < |NorwegianDays| && NorwegianDays[i] == s;
    if i == 0 {} else if i == 1 {} else if i == 2 {} else if i == 3 {}
    else if i == 4 {} else if i == 5 {} else {}
  }

  /** No Norwegian name is one of the English names the switch translates. */
  lemma NorwegianNameIsNotEnglish(s: string)
    requires s in NorwegianDays
    ensures s !in EnglishDays
  {
  }

  /** The switch maps a lower-case trimmed name to a lower-case trimmed name. */
  lemma DaySwitchKeepsNormal(d: string)
    requires IsLowerCase(d) && IsTrimmed(d)
    ensures IsLowerCase(DaySwitch(d)) && IsTrimmed(DaySwitch(d))
  {
    if d in EnglishDays {
      var i :| 0 <= i < |EnglishDays| && d == EnglishDays[i];
      NorwegianNameIsNormal(NorwegianDays[i]);
    }
  }

  /** Position by position, `Norwegify` maps `EnglishDays` onto `NorwegianDays`
      after normalising; every other name is returned normalised, not unchanged. */
  lemma NorwegifyTranslates(day: string)
    ensures forall i :: 0 <= i < |EnglishDays| && Normalize(day) == EnglishDays[i] ==>
              Norwegify(day) == NorwegianDays[i]
    ensures Normalize(day) !in EnglishDays ==> Norwegify(day) == Normalize(day)
    ensures Normalize(day) in EnglishDays <==> Norwegify(day) in NorwegianDays && Norwegify(day) != Normalize(day)
  {
    var d := Normalize(day);
    if d in EnglishDays {
      var i :| 0 <= i < |EnglishDays| && d == EnglishDays[i];
      NorwegianNameIsNotEnglish(NorwegianDays[i]);
    }
  }

  /** Applying `Norwegify` twice gives the same as applying it once. */
  lemma NorwegifyIdempotent(day: string)
    ensures Norwegify(Norwegify(day)) == Norwegify(day)
  {
    var d := Normalize(day);
    var r := Norwegify(day);
    assert Normalize(r) == r;
    if d in EnglishDays {
      var i :| 0 <= i < |EnglishDays| && d == EnglishDays[i];
      NorwegianNameIsNotEnglish(r);
    }
  }

  /** A Norwegian weekday name is already what `Norwegify` produces. */
  lemma NorwegifyKeepsNorwegian(s: string)
    requires s in NorwegianDays
    ensures Norwegify(s) == s
  {
    NorwegianNameIsNormal(s);
    NorwegianNameIsNotEnglish(s);
  }
}
