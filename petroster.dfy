/**
  The pet-picking tutorial screen: the names and descriptions of the three
  pets, read as the first, second and third occurrences of their keys in the
  configuration text, with built-in fallbacks when there is no text.
*/
module PetRoster {
  import opened JavaLang
  import opened Scanning

  const UNKNOWN: string := "Unknown"

  /** `extractPetValue(json, key, occurrence)`: the text between the first two
      `"` after the `occurrence`-th (0-based) match of `"key":`, counting
      matches that do not overlap; "Unknown" when there are not that many
      matches, when one of the quotes is missing, or when `occurrence` is
      negative (no count ever reaches it). */
  function PetValue(json: string, key: string, occurrence: int): (r: string)
    ensures occurrence < 0 ==> r == UNKNOWN
    ensures '"' !in r
  {
    if occurrence < 0 then UNKNOWN
    else ValueAfter(json, KeyPattern(key), Nth(json, KeyPattern(key), 0, occurrence))
  }

  /** The value read after a match of `pat` at `k`, or "Unknown" for no match. */
  function ValueAfter(json: string, pat: string, k: int): string
    requires k >= -1
  {
    if k == -1 then UNKNOWN else ValueFrom(json, k + |pat|)
  }

  /** The text between the next two quotes from `from`, or "Unknown". */
  function ValueFrom(json: string, from: nat): string
  {
    match Quoted(json, from)
    case None => UNKNOWN
    case Some(v) => v
  }

  /** `extractPetValue`: builds the search key once, walks to the wanted
      match and reads the value after it; "Unknown" when the walk runs out
      of matches. */
  method ExtractPetValue(json: string, key: string, occurrence: int) returns (r: string)
    ensures r == PetValue(json, key, occurrence)
  {
    var searchKey := KeyPattern(key);
    var keyIndex := WalkToOccurrence(json, searchKey, occurrence);
    if keyIndex == -1 {
      return UNKNOWN;
    }
    r := QuotedOrUnknown(json, keyIndex + |searchKey|);
  }

  /** The loop of `extractPetValue`: walks from match to match of
      `searchKey`, resuming just past each, and stops at the `occurrence`-th;
      -1 when the matches run out first. */
  method WalkToOccurrence(json: string, searchKey: string, occurrence: int) returns (keyIndex: int)
    requires searchKey != []
    ensures keyIndex == if occurrence < 0 then -1 else Nth(json, searchKey, 0, occurrence)
  {
    var arrayIndex := 0;
    var fromIndex := 0;
    while true
      invariant fromIndex <= |json| && 0 <= arrayIndex
      invariant occurrence >= 0 ==> arrayIndex <= occurrence
      invariant occurrence >= 0 ==>
        Nth(json, searchKey, 0, occurrence) == Nth(json, searchKey, fromIndex, occurrence - arrayIndex)
      decreases |json| - fromIndex
    {
      keyIndex := IndexOf(json, searchKey, fromIndex);
      if occurrence >= 0 {
        NthStep(json, searchKey, fromIndex, occurrence - arrayIndex);
      }
      if keyIndex == -1 || arrayIndex == occurrence {
        return;
      }
      fromIndex, arrayIndex := keyIndex + |searchKey|, arrayIndex + 1;
    }
  }

  /** The end of `extractPetValue` once the wanted match is found: the text
      between the next two quotes, or "Unknown" when one is missing. */
  method QuotedOrUnknown(json: string, from: nat) returns (r: string)
    ensures r == ValueFrom(json, from)
  {
    var firstQuote := IndexOfChar(json, '"', from);
    if firstQuote == -1 {
      return UNKNOWN;
    }
    var secondQuote := IndexOfChar(json, '"', firstQuote + 1);
    if secondQuote == -1 {
      return UNKNOWN;
    }
    return json[firstQuote + 1..secondQuote];
  }

  /** With no more than `occurrence` matches the value is "Unknown". */
  lemma TooFewMatches(json: string, key: string, occurrence: nat)
    requires occurrence >= Count(json, KeyPattern(key), 0)
    ensures PetValue(json, key, occurrence) == UNKNOWN
  {
    NthExists(json, KeyPattern(key), 0, occurrence);
  }

  /** With the `occurrence`-th match followed by two quotes at `first` and
      `second`, the value is the text between them. */
  lemma ValueBetweenQuotes(json: string, key: string, occurrence: nat, first: nat, second: nat)
    requires occurrence < Count(json, KeyPattern(key), 0)
    requires Nth(json, KeyPattern(key), 0, occurrence) + |KeyPattern(key)| <= first < second < |json|
    requires json[first] == '"' && json[second] == '"'
    requires forall i :: Nth(json, KeyPattern(key), 0, occurrence) + |KeyPattern(key)| <= i < first ==> json[i] != '"'
    requires forall i :: first < i < second ==> json[i] != '"'
    ensures PetValue(json, key, occurrence) == json[first + 1..second]
  {
    var pattern := KeyPattern(key);
    NthExists(json, pattern, 0, occurrence);
    ValueAfterBetween(json, pattern, Nth(json, pattern, 0, occurrence), first, second);
  }

  /** Two quotes after the match at `k` delimit the value read there. */
  lemma ValueAfterBetween(json: string, pat: string, k: nat, first: nat, second: nat)
    requires k + |pat| <= first < second < |json| && json[first] == '"' && json[second] == '"'
    requires forall i :: k + |pat| <= i < first ==> json[i] != '"'
    requires forall i :: first < i < second ==> json[i] != '"'
    ensures ValueAfter(json, pat, k) == json[first + 1..second]
  {
    QuotedBetween(json, k + |pat|, first, second);
  }

  /** With fewer than two quotes after the `occurrence`-th match the value is
      "Unknown", even though the match exists. */
  lemma MissingQuoteUnknown(json: string, key: string, occurrence: nat, first: int)
    requires occurrence < Count(json, KeyPattern(key), 0)
    requires Nth(json, KeyPattern(key), 0, occurrence) + |KeyPattern(key)| <= first
    requires forall i :: Nth(json, KeyPattern(key), 0, occurrence) + |KeyPattern(key)| <= i < |json| && i != first ==>
      json[i] != '"'
    ensures PetValue(json, key, occurrence) == UNKNOWN
  {
    var pattern := KeyPattern(key);
    NthExists(json, pattern, 0, occurrence);
    var from := Nth(json, pattern, 0, occurrence) + |pattern|;
    IndexOfCharSpec(json, '"', from);
    var q := IndexOfChar(json, '"', from);
    if q != -1 {
      assert q == first;
      IndexOfCharSpec(json, '"', q + 1);
    }
  }

  /** The `occurrence`-th value is read after the `occurrence`-th element of
      the list of matches. */
  lemma ValueAtMatch(json: string, key: string, occurrence: nat)
    requires occurrence < |Matches(json, KeyPattern(key), 0)|
    ensures PetValue(json, key, occurrence) ==
      ValueFrom(json, Matches(json, KeyPattern(key), 0)[occurrence] + |KeyPattern(key)|)
  {
    var pattern := KeyPattern(key);
    MatchesAreNth(json, pattern, 0);
    NthAfter(json, pattern, Nth(json, pattern, 0, occurrence), Matches(json, pattern, 0)[occurrence]);
  }

  /** The value after a match is the value read just past it. */
  lemma NthAfter(json: string, pat: string, k: int, m: nat)
    requires k == m
    ensures ValueAfter(json, pat, k) == ValueFrom(json, m + |pat|)
  {
  }

  const FALLBACK_NAMES: seq<string> := ["Luka", "Anthony", "Sam"]

  /** The description used for a fallback name. */
  function DefaultDescription(name: string): (d: string)
    ensures |d| == |name| + 24 && d[24..] == name
  {
    "Default description for " + name
  }

  class PetPicker {
    var petName1: string
    var petName2: string
    var petName3: string
    var petDesc1: string
    var petDesc2: string
    var petDesc3: string

    function Names(): seq<string>
      reads this
    {
      [petName1, petName2, petName3]
    }

    function Descriptions(): seq<string>
      reads this
    {
      [petDesc1, petDesc2, petDesc3]
    }

    /** Pet `i` takes the `i`-th (0-based) name and description of the
        configuration text, or, when there is no text, the fallback name and
        its default description. */
    constructor (json: Option<string>)
      ensures json.Some? ==>
        Names() == [PetValue(json.value, "petName", 0), PetValue(json.value, "petName", 1),
                    PetValue(json.value, "petName", 2)]
      ensures json.Some? ==>
        Descriptions() == [PetValue(json.value, "petDescription", 0), PetValue(json.value, "petDescription", 1),
                           PetValue(json.value, "petDescription", 2)]
      ensures json.None? ==> Names() == FALLBACK_NAMES
      ensures json.None? ==>
        Descriptions() == [DefaultDescription("Luka"), DefaultDescription("Anthony"), DefaultDescription("Sam")]
    {
      if json.Some? {
        var name1 := ExtractPetValue(json.value, "petName", 0);
        var desc1 := ExtractPetValue(json.value, "petDescription", 0);
        var name2 := ExtractPetValue(json.value, "petName", 1);
        var desc2 := ExtractPetValue(json.value, "petDescription", 1);
        var name3 := ExtractPetValue(json.value, "petName", 2);
        var desc3 := ExtractPetValue(json.value, "petDescription", 2);
        petName1, petName2, petName3 := name1, name2, name3;
        petDesc1, petDesc2, petDesc3 := desc1, desc2, desc3;
      } else {
        petName1, petName2, petName3 := "Luka", "Anthony", "Sam";
        petDesc1 := DefaultDescription("Luka");
        petDesc2 := DefaultDescription("Anthony");
        petDesc3 := DefaultDescription("Sam");
      }
    }
  }
}
