/**
  The parental-controls screen: the settings it reads from the configuration
  text, the password overlay that guards it, and the playtime counters.
*/
module ParentalControls {
  import opened JavaLang
  import opened Scanning

  /** `extractValue`: the text between the first two `"` after the first
      `"key":`, or `None` when the key or one of the quotes is missing. An
      unquoted value therefore yields whatever quoted token follows it. */
  function ExtractValue(json: string, key: string): (r: Option<string>)
    ensures r.Some? ==> '"' !in r.value
  {
    var pattern := KeyPattern(key);
    var keyIndex := IndexOf(json, pattern, 0);
    if keyIndex == -1 then None else Quoted(json, keyIndex + |pattern|)
  }

  /** Without the key there is no value. */
  lemma ExtractAbsent(json: string, key: string)
    requires !Contains(json, KeyPattern(key))
    ensures ExtractValue(json, key).None?
  {
    IndexOfSpec(json, KeyPattern(key), 0);
  }

  /** With `"key":` first at `k` and the next two quotes after it at `first`
      and `second`, the value is the text between those quotes. */
  lemma ExtractFound(json: string, key: string, k: nat, first: nat, second: nat)
    requires FirstAt(json, KeyPattern(key), 0, k)
    requires k + |KeyPattern(key)| <= first < second < |json|
    requires json[first] == '"' && json[second] == '"'
    requires forall i :: k + |KeyPattern(key)| <= i < first ==> json[i] != '"'
    requires forall i :: first < i < second ==> json[i] != '"'
    ensures ExtractValue(json, key) == Some(json[first + 1..second])
  {
    IndexOfFirst(json, KeyPattern(key), 0, k);
    QuotedBetween(json, k + |KeyPattern(key)|, first, second);
  }

  /** The settings the screen keeps; `password` is `None` for a `null` one. */
  datatype Values = Values(password: Option<string>, totalPlaytime: Int32,
                           avgPlaytime: Int32, resetPlayTime: Int32, petRevival: bool)

  /** The field values before any settings are read. */
  const DEFAULTS: Values := Values(None, 0, 0, 0, false)

  /** `Boolean.parseBoolean`. */
  predicate ParseBoolean(s: string)
  {
    EqualsIgnoreCase(s, "true")
  }

  /** One `if (x != null) field = Integer.parseInt(x)` inside the shared
      `try`: `None` when it throws, otherwise the value to keep. */
  function ParseOptional(x: Option<string>, current: Int32): Option<Int32>
  {
    match x
    case None => Some(current)
    case Some(t) => ParseInt(t)
  }

  /** The five texts `loadParentalSettings` extracts, each `None` for `null`. */
  datatype Extracted = Extracted(password: Option<string>, totalPT: Option<string>,
                                 avgPT: Option<string>, resetPT: Option<string>,
                                 petRevivalStr: Option<string>)

  function Extract(json: string): Extracted
  {
    Extracted(ExtractValue(json, "parentPassword"), ExtractValue(json, "totalPlayTime"),
              ExtractValue(json, "averagePlayTime"), ExtractValue(json, "resetPlayTime"),
              ExtractValue(json, "petRevival"))
  }

  /** The assignments of `loadParentalSettings`: the password is always
      taken; the three integers are parsed in order and the first that is
      not an integer abandons the rest, petRevival included. */
  function Apply(x: Extracted, v: Values): Values
  {
    var v1 := v.(password := x.password);
    match ParseOptional(x.totalPT, v.totalPlaytime)
    case None => v1
    case Some(total) =>
      var v2 := v1.(totalPlaytime := total);
      match ParseOptional(x.avgPT, v.avgPlaytime)
      case None => v2
      case Some(avg) =>
        var v3 := v2.(avgPlaytime := avg);
        match ParseOptional(x.resetPT, v.resetPlayTime)
        case None => v3
        case Some(reset) =>
          var v4 := v3.(resetPlayTime := reset);
          match x.petRevivalStr
          case None => v4
          case Some(b) => v4.(petRevival := ParseBoolean(b))
  }

  /** `loadParentalSettings` on configuration text. */
  function Load(json: string, v: Values): (r: Values)
    ensures r.password == ExtractValue(json, "parentPassword")
  {
    Apply(Extract(json), v)
  }

  const LOADED_STATUS: string := "<html><div style='text-align: center; color: green;'></div></html>"
  const FAILED_STATUS: string := "Failed to load parental settings."

  /** Whether an extracted integer setting would not throw. */
  predicate WellFormed(x: Option<string>)
  {
    x.None? || ParseInt(x.value).Some?
  }

  /** The integer a well-formed setting holds, or `current` when it is absent. */
  function Present(x: Option<string>, current: Int32): Int32
  {
    match x
    case None => current
    case Some(t) => if ParseInt(t).Some? then ParseInt(t).value else current
  }

  /** With every integer well formed, each setting present is read and each
      absent one keeps its value. */
  lemma ApplyAllValid(x: Extracted, v: Values)
    requires WellFormed(x.totalPT) && WellFormed(x.avgPT) && WellFormed(x.resetPT)
    ensures Apply(x, v).password == x.password
    ensures Apply(x, v).totalPlaytime == Present(x.totalPT, v.totalPlaytime)
    ensures Apply(x, v).avgPlaytime == Present(x.avgPT, v.avgPlaytime)
    ensures Apply(x, v).resetPlayTime == Present(x.resetPT, v.resetPlayTime)
    ensures Apply(x, v).petRevival <==>
      if x.petRevivalStr.Some? then ParseBoolean(x.petRevivalStr.value) else v.petRevival
  {
  }

  /** A malformed total playtime leaves every setting but the password as it was. */
  lemma BadTotalStops(x: Extracted, v: Values)
    requires !WellFormed(x.totalPT)
    ensures Apply(x, v) == v.(password := x.password)
  {
  }

  /** A malformed average keeps the total already read and leaves the reset
      time and the revival flag as they were. */
  lemma BadAverageStops(x: Extracted, v: Values)
    requires WellFormed(x.totalPT) && !WellFormed(x.avgPT)
    ensures Apply(x, v) == v.(password := x.password, totalPlaytime := Present(x.totalPT, v.totalPlaytime))
  {
  }

  /** A malformed reset time keeps the two counts already read and leaves the
      revival flag as it was. */
  lemma BadResetStops(x: Extracted, v: Values)
    requires WellFormed(x.totalPT) && WellFormed(x.avgPT) && !WellFormed(x.resetPT)
    ensures Apply(x, v) == v.(password := x.password, totalPlaytime := Present(x.totalPT, v.totalPlaytime),
                              avgPlaytime := Present(x.avgPT, v.avgPlaytime))
  {
  }

  /** What one press of the overlay's password button gives. */
  datatype Attempt = Cancelled | Unlocked | WrongPassword

  /** The password check: the dialog's text (`None` when it was cancelled)
      against the stored password (`None` when none was read). */
  function Check(entered: Option<string>, password: Option<string>): (r: Attempt)
    ensures r == Cancelled <==> entered.None?
  {
    if entered.None? then Cancelled
    else if password == Some(entered.value) then Unlocked
    else WrongPassword
  }

  /** The overlay opens exactly for a typed text equal to a stored password,
      so a missing password keeps it closed whatever is typed. */
  lemma UnlockExactly(entered: Option<string>, password: Option<string>)
    ensures Check(entered, password) == Unlocked <==>
      entered.Some? && password.Some? && entered.value == password.value
    ensures password.None? ==> Check(entered, password) != Unlocked
    ensures Check(entered, password) == Cancelled <==> entered.None?
  {
  }

  class ParentalControlScreen {
    var parentPassword: Option<string>
    var totalPlaytime: Int32
    var avgPlaytime: Int32
    var resetPlayTime: Int32
    var petRevival: bool
    var status: string
    /** Whether the password overlay still covers the screen. */
    var locked: bool

    function Settings(): Values
      reads this
    {
      Values(parentPassword, totalPlaytime, avgPlaytime, resetPlayTime, petRevival)
    }

    /** The screen starts from the defaults, reads the settings from the
        configuration text (`None` when it could not be read) and is locked. */
    constructor (json: Option<string>)
      ensures json.None? ==> Settings() == DEFAULTS && status == FAILED_STATUS
      ensures json.Some? ==> Settings() == Load(json.value, DEFAULTS) && status == LOADED_STATUS
      ensures locked
    {
      parentPassword, totalPlaytime, avgPlaytime, resetPlayTime, petRevival := None, 0, 0, 0, false;
      status := "";
      locked := true;
      new;
      LoadParentalSettings(json);
    }

    /** `loadParentalSettings`. */
    method LoadParentalSettings(json: Option<string>)
      modifies this
      ensures json.None? ==> Settings() == old(Settings()) && status == FAILED_STATUS
      ensures json.Some? ==> Settings() == Load(json.value, old(Settings())) && status == LOADED_STATUS
      ensures locked == old(locked)
    {
      if json.None? {
        status := FAILED_STATUS;
        return;
      }
      var x := Extract(json.value);
      parentPassword := x.password;
      var totalPT, avgPT, resetPT, petRevivalStr := x.totalPT, x.avgPT, x.resetPT, x.petRevivalStr;
      status := LOADED_STATUS;
      if totalPT.Some? {
        var n := ParseInt(totalPT.value);
        if n.None? {
          BadTotalStops(x, old(Settings()));
          return;
        }
        totalPlaytime := n.value;
      }
      if avgPT.Some? {
        var n := ParseInt(avgPT.value);
        if n.None? {
          BadAverageStops(x, old(Settings()));
          return;
        }
        avgPlaytime := n.value;
      }
      if resetPT.Some? {
        var n := ParseInt(resetPT.value);
        if n.None? {
          BadResetStops(x, old(Settings()));
          return;
        }
        resetPlayTime := n.value;
      }
      if petRevivalStr.Some? {
        petRevival := ParseBoolean(petRevivalStr.value);
      }
      ApplyAllValid(x, old(Settings()));
    }

    /** A press of the overlay's password button: the right password lifts
        the overlay for good; nothing else changes. */
    method EnterPassword(entered: Option<string>) returns (r: Attempt)
      modifies this
      ensures r == Check(entered, parentPassword)
      ensures locked == (old(locked) && r != Unlocked)
      ensures Settings() == old(Settings()) && status == old(status)
    {
      r := Check(entered, parentPassword);
      if r == Unlocked {
        locked := false;
      }
    }

    /** `updatePlaytimeStats`: the minutes are added to the total (with
        `int` wrap-around) and the average becomes the new total. */
    method UpdatePlaytimeStats(minutes: Int32)
      modifies this
      ensures totalPlaytime == Add(old(totalPlaytime), minutes)
      ensures avgPlaytime == totalPlaytime
      ensures parentPassword == old(parentPassword) && resetPlayTime == old(resetPlayTime)
      ensures petRevival == old(petRevival) && status == old(status) && locked == old(locked)
    {
      totalPlaytime := Add(totalPlaytime, minutes);
      avgPlaytime := totalPlaytime / 1;
    }
  }
}
