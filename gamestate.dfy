/**
  `GameState`: four vitals with setters, written as a small JSON-looking
  object by `toJson` and read back by `fromJson`, which strips the braces,
  splits on `,` and then on `:`, and sets the field whose quoted key matches.
*/
module GameStateJson {
  import opened JavaLang

  /** The four fields, in the order `toJson` writes them. */
  datatype Snapshot = Snapshot(health: Int32, hunger: Int32, sleep: Int32, happiness: Int32)

  const HEALTH: string := "\"health\""
  const HUNGER: string := "\"hunger\""
  const SLEEP: string := "\"sleep\""
  const HAPPINESS: string := "\"happiness\""

  /** The value of the field a quoted key names (0 for any other key). */
  function Get(s: Snapshot, key: string): Int32
  {
    if key == HEALTH then s.health
    else if key == HUNGER then s.hunger
    else if key == SLEEP then s.sleep
    else if key == HAPPINESS then s.happiness
    else 0
  }

  /** One setter, chosen by its quoted key. */
  function Set(s: Snapshot, key: string, v: Int32): Snapshot
  {
    if key == HEALTH then s.(health := v)
    else if key == HUNGER then s.(hunger := v)
    else if key == SLEEP then s.(sleep := v)
    else if key == HAPPINESS then s.(happiness := v)
    else s
  }

  /** A setter changes the field its key names and no other. */
  lemma SetGet(s: Snapshot, key: string, v: Int32)
    ensures IsKey(key) ==> Get(Set(s, key, v), key) == v
    ensures forall k :: k != key ==> Get(Set(s, key, v), k) == Get(s, k)
  {
  }

  predicate IsKey(key: string)
  {
    key == HEALTH || key == HUNGER || key == SLEEP || key == HAPPINESS
  }

  /** One `"key": value` entry. */
  function Entry(key: string, v: Int32): string
  {
    key + ": " + IntToString(v)
  }

  /** `toJson`: the four entries in order, each followed by a comma, in braces. */
  function Json(s: Snapshot): (r: string)
    ensures 2 <= |r| && r[0] == '{' && r[|r| - 1] == '}'
  {
    "{" + Entry(HEALTH, s.health) + "," + Entry(HUNGER, s.hunger) + "," +
    Entry(SLEEP, s.sleep) + "," + Entry(HAPPINESS, s.happiness) + "," + "}"
  }

  /** `s.replace(c, "")` for one character. */
  function Without(s: string, c: char): (r: string)
    ensures c !in r
  {
    if s == [] then []
    else (if s[0] == c then [] else [s[0]]) + Without(s[1..], c)
  }

  /** The pieces `fromJson` loops over. */
  function Parts(json: string): seq<string>
  {
    Split(Without(Without(json, '{'), '}'), ',')
  }

  /** The trimmed text before the first `:` of a part, or `None` when
      `split(":")` leaves nothing (reading `keyValue[0]` throws). */
  function PartKey(part: string): Option<string>
  {
    var kv := Split(part, ':');
    if |kv| == 0 then None else Some(Trim(kv[0]))
  }

  /** One iteration of the loop: a part naming one of the four keys sets that
      field to the trimmed text after the colon as an `int`; any other key is
      ignored; `None` is the exception a missing key or value, or a value that
      is not an integer, throws. */
  function ApplyPart(s: Snapshot, part: string): Option<Snapshot>
  {
    var kv := Split(part, ':');
    if |kv| == 0 then None
    else
      var key := Trim(kv[0]);
      if !IsKey(key) then Some(s)
      else if |kv| < 2 then None
      else
        match ParseInt(Trim(kv[1]))
        case None => None
        case Some(v) => Some(Set(s, key, v))
  }

  /** The parts applied in order, from `s`; the first exception stops the rest. */
  function ApplyParts(s: Snapshot, parts: seq<string>): Option<Snapshot>
  {
    if parts == [] then Some(s) else Then(ApplyParts(s, parts[..|parts| - 1]), parts[|parts| - 1])
  }

  /** The next part, unless an exception was already thrown. */
  function Then(o: Option<Snapshot>, part: string): Option<Snapshot>
  {
    match o
    case None => None
    case Some(t) => ApplyPart(t, part)
  }

  /** `fromJson` on a new object whose fields are all 0. */
  function Decode(json: string): Option<Snapshot>
  {
    ApplyParts(Snapshot(0, 0, 0, 0), Parts(json))
  }

  class GameState {
    var health: Int32
    var hunger: Int32
    var sleep: Int32
    var happiness: Int32

    function State(): Snapshot
      reads this
    {
      Snapshot(health, hunger, sleep, happiness)
    }

    constructor ()
      ensures State() == Snapshot(0, 0, 0, 0)
    {
      health, hunger, sleep, happiness := 0, 0, 0, 0;
    }

    /** Each setter changes its own field only, so each getter gives back
        the last value set. */
    method SetHealth(v: Int32)
      modifies this
      ensures State() == old(State()).(health := v)
    {
      health := v;
    }

    method SetHunger(v: Int32)
      modifies this
      ensures State() == old(State()).(hunger := v)
    {
      hunger := v;
    }

    method SetSleep(v: Int32)
      modifies this
      ensures State() == old(State()).(sleep := v)
    {
      sleep := v;
    }

    method SetHappiness(v: Int32)
      modifies this
      ensures State() == old(State()).(happiness := v)
    {
      happiness := v;
    }

    /** `toJson`. */
    function ToJson(): string
      reads this
    {
      Json(State())
    }
  }

  /** `fromJson`: a fresh object, then one setter call per recognised part;
      `null` is the exception that stops it. */
  method FromJson(json: string) returns (g: GameState?)
    ensures g == null <==> Decode(json).None?
    ensures g != null ==> fresh(g) && g.State() == Decode(json).value
  {
    var gameState := new GameState();
    var parts := Parts(json);
    for i := 0 to |parts|
      invariant ApplyParts(Snapshot(0, 0, 0, 0), parts[..i]) == Some(gameState.State())
    {
      assert parts[..i + 1] == parts[..i] + [parts[i]];
      ApplyPartsSnoc(Snapshot(0, 0, 0, 0), parts[..i], parts[i]);
      var keyValue := Split(parts[i], ':');
      if |keyValue| == 0 {
        ApplyPartsStops(Snapshot(0, 0, 0, 0), parts, i + 1);
        return null;
      }
      var key := Trim(keyValue[0]);
      if IsKey(key) {
        if |keyValue| < 2 {
          ApplyPartsStops(Snapshot(0, 0, 0, 0), parts, i + 1);
          return null;
        }
        var value := ParseInt(Trim(keyValue[1]));
        if value.None? {
          ApplyPartsStops(Snapshot(0, 0, 0, 0), parts, i + 1);
          return null;
        }
        SetByKey(gameState.State(), value.value);
        if key == HEALTH {
          gameState.SetHealth(value.value);
        } else if key == HUNGER {
          gameState.SetHunger(value.value);
        } else if key == SLEEP {
          gameState.SetSleep(value.value);
        } else {
          gameState.SetHappiness(value.value);
        }
      }
    }
    assert parts[..|parts|] == parts;
    return gameState;
  }

  /** After an exception the later parts change nothing. */
  lemma {:induction false} ApplyPartsStops(s: Snapshot, parts: seq<string>, n: nat)
    requires n <= |parts| && ApplyParts(s, parts[..n]).None?
    ensures ApplyParts(s, parts).None?
    decreases |parts| - n
  {
    if n < |parts| {
      var shorter := parts[..|parts| - 1];
      assert shorter[..n] == parts[..n];
      ApplyPartsStops(s, shorter, n);
    } else {
      assert parts[..n] == parts;
    }
  }

  lemma ApplyPartsSnoc(s: Snapshot, parts: seq<string>, part: string)
    ensures ApplyParts(s, parts + [part]) == Then(ApplyParts(s, parts), part)
  {
    assert (parts + [part])[..|parts|] == parts;
  }

  /** A later part with the same key overwrites what an earlier one set. */
  lemma LaterKeyWins(s: Snapshot, parts: seq<string>, part: string, t: Snapshot, key: string, v: Int32)
    requires ApplyParts(s, parts) == Some(t)
    requires IsKey(key) && PartKey(part) == Some(key)
    requires |Split(part, ':')| >= 2 && ParseInt(Trim(Split(part, ':')[1])) == Some(v)
    ensures ApplyParts(s, parts + [part]).Some?
    ensures Get(ApplyParts(s, parts + [part]).value, key) == v
    ensures forall k :: k != key ==> Get(ApplyParts(s, parts + [part]).value, k) == Get(t, k)
  {
    ApplyPartsSnoc(s, parts, part);
    SetGet(t, key, v);
  }

  /** A part whose key is none of the four changes nothing. */
  lemma UnknownKeyIgnored(s: Snapshot, parts: seq<string>, part: string)
    requires PartKey(part).Some? && !IsKey(PartKey(part).value)
    ensures ApplyParts(s, parts + [part]) == ApplyParts(s, parts)
  {
    ApplyPartsSnoc(s, parts, part);
  }

  /** A part with one of the four keys but no integer after the colon throws. */
  lemma BadValueThrows(s: Snapshot, parts: seq<string>, part: string)
    requires PartKey(part).Some? && IsKey(PartKey(part).value)
    requires |Split(part, ':')| < 2 || ParseInt(Trim(Split(part, ':')[1])).None?
    ensures ApplyParts(s, parts + [part]).None?
  {
    ApplyPartsSnoc(s, parts, part);
  }

  /** A field whose key no part names keeps its starting value, so a key
      absent from the text leaves its field at 0. */
  lemma {:induction false} AbsentKeyUntouched(s: Snapshot, parts: seq<string>, key: string)
    requires forall i :: 0 <= i < |parts| ==> PartKey(parts[i]) != Some(key)
    requires ApplyParts(s, parts).Some?
    ensures Get(ApplyParts(s, parts).value, key) == Get(s, key)
  {
    if parts != [] {
      var init, last := parts[..|parts| - 1], parts[|parts| - 1];
      AbsentKeyUntouched(s, init, key);
      var t := ApplyParts(s, init).value;
      var kv := Split(last, ':');
      if |kv| >= 2 && ParseInt(Trim(kv[1])).Some? {
        SetGet(t, Trim(kv[0]), ParseInt(Trim(kv[1])).value);
      }
    }
  }

  // ------------------------------------------------------------ round trip

  /** Removing a character distributes over concatenation. */
  lemma {:induction false} WithoutAppend(a: string, b: string, c: char)
    ensures Without(a + b, c) == Without(a, c) + Without(b, c)
  {
    if a == [] {
      assert a + b == b;
    } else {
      assert (a + b)[1..] == a[1..] + b;
      WithoutAppend(a[1..], b, c);
    }
  }

  /** Removing a character that does not occur changes nothing. */
  lemma {:induction false} WithoutAbsent(a: string, c: char)
    requires c !in a
    ensures Without(a, c) == a
  {
    if a != [] {
      WithoutAbsent(a[1..], c);
      assert [a[0]] + a[1..] == a;
    }
  }

  /** Stripping the braces around a brace-free text leaves that text. */
  lemma RemoveBraces(b: string)
    requires '{' !in b && '}' !in b
    ensures Without(Without("{" + b + "}", '{'), '}') == b
  {
    var x := "{" + b;
    assert "{" + b + "}" == x + "}";
    WithoutAppend(x, "}", '{');
    WithoutAppend("{", b, '{');
    assert Without("{", '{') == [] + Without([], '{');
    WithoutAbsent(b, '{');
    WithoutAbsent("}", '{');
    assert [] + b == b;
    WithoutAppend(b, "}", '}');
    WithoutAbsent(b, '}');
    assert Without("}", '}') == [] + Without([], '}');
    assert b + [] == b;
  }

  /** A separator-free first field. */
  lemma FieldsCons(e: string, rest: string, sep: char)
    requires sep !in e
    ensures Fields(e + [sep] + rest, sep) == [e] + Fields(rest, sep)
  {
    FieldsAppend(e, rest, sep);
    FieldsWithout(e, sep);
  }

  /** The fields of four comma-free texts, each followed by a comma. */
  lemma FieldsFour(e1: string, e2: string, e3: string, e4: string)
    requires ',' !in e1 && ',' !in e2 && ',' !in e3 && ',' !in e4
    ensures Fields(e1 + [','] + (e2 + [','] + (e3 + [','] + (e4 + [','] + ""))), ',') == [e1, e2, e3, e4, ""]
  {
    FieldsCons(e4, "", ',');
    FieldsCons(e3, e4 + [','] + "", ',');
    FieldsCons(e2, e3 + [','] + (e4 + [','] + ""), ',');
    FieldsCons(e1, e2 + [','] + (e3 + [','] + (e4 + [','] + "")), ',');
  }

  /** Four comma-free texts, each followed by a comma, split into those four. */
  lemma SplitFour(e1: string, e2: string, e3: string, e4: string)
    requires ',' !in e1 && ',' !in e2 && ',' !in e3 && ',' !in e4 && e4 != []
    ensures Split(e1 + "," + e2 + "," + e3 + "," + e4 + ",", ',') == [e1, e2, e3, e4]
  {
    var b := e1 + "," + e2 + "," + e3 + "," + e4 + ",";
    assert b == e1 + [','] + (e2 + [','] + (e3 + [','] + (e4 + [','] + "")));
    FieldsFour(e1, e2, e3, e4);
    assert b[|e1|] == ',';
    DropFour(e1, e2, e3, e4);
  }

  lemma DropFour(e1: string, e2: string, e3: string, e4: string)
    requires e4 != []
    ensures DropTrailingEmpty([e1, e2, e3, e4, ""]) == [e1, e2, e3, e4]
  {
    assert [e1, e2, e3, e4, ""][..4] == [e1, e2, e3, e4];
  }

  /** A text with no blank at either end is its own trim. */
  lemma TrimSame(x: string)
    requires x != [] && !IsTrimmed(x[0]) && !IsTrimmed(x[|x| - 1])
    ensures Trim(x) == x
  {
  }

  /** A leading space is trimmed away. */
  lemma TrimSpace(x: string)
    ensures Trim(" " + x) == Trim(x)
  {
    assert (" " + x)[1..] == x;
  }

  /** Trimming the space `toJson` puts after the colon. */
  lemma TrimNumber(v: Int32)
    ensures Trim(" " + IntToString(v)) == IntToString(v)
  {
    var n := IntToString(v);
    assert IsDigit(n[0]) || n[0] == '-';
    assert IsDigit(n[|n| - 1]) || n[|n| - 1] == '-';
    TrimSpace(n);
    TrimSame(n);
  }

  /** An entry splits on its colon into the quoted key and the number. */
  lemma EntryFields(key: string, v: Int32)
    requires ':' !in key
    ensures Split(Entry(key, v), ':') == [key, " " + IntToString(v)]
  {
    var n := " " + IntToString(v);
    assert ':' !in n;
    assert Entry(key, v) == key + [':'] + n;
    FieldsAppend(key, n, ':');
    FieldsWithout(key, ':');
    FieldsWithout(n, ':');
  }

  /** The loop reads back the field an entry wrote. */
  lemma EntryApplies(t: Snapshot, key: string, v: Int32)
    requires IsKey(key)
    ensures ApplyPart(t, Entry(key, v)) == Some(Set(t, key, v))
  {
    EntryFields(key, v);
    TrimSame(key);
    TrimNumber(v);
    ParseIntToString(v);
  }

  lemma EntryChars(key: string, v: Int32)
    requires IsKey(key)
    ensures '{' !in Entry(key, v) && '}' !in Entry(key, v) && ',' !in Entry(key, v)
  {
    var n := IntToString(v);
    assert forall i :: 0 <= i < |n| ==> n[i] != '{' && n[i] != '}' && n[i] != ',';
  }

  /** Removing the braces leaves the body, which splits into the four entries. */
  lemma PartsOfJson(s: Snapshot)
    ensures Parts(Json(s)) == Entries(s)
  {
    EntryChars(HEALTH, s.health);
    EntryChars(HUNGER, s.hunger);
    EntryChars(SLEEP, s.sleep);
    EntryChars(HAPPINESS, s.happiness);
    PartsOfBraced(Entry(HEALTH, s.health), Entry(HUNGER, s.hunger), Entry(SLEEP, s.sleep), Entry(HAPPINESS, s.happiness));
  }

  /** Four comma-free, brace-free entries, each followed by a comma, in braces. */
  lemma PartsOfBraced(e1: string, e2: string, e3: string, e4: string)
    requires '{' !in e1 && '}' !in e1 && ',' !in e1
    requires '{' !in e2 && '}' !in e2 && ',' !in e2
    requires '{' !in e3 && '}' !in e3 && ',' !in e3
    requires '{' !in e4 && '}' !in e4 && ',' !in e4 && e4 != []
    ensures Parts("{" + e1 + "," + e2 + "," + e3 + "," + e4 + "," + "}") == [e1, e2, e3, e4]
  {
    var b := e1 + "," + e2 + "," + e3 + "," + e4 + ",";
    assert "{" + e1 + "," + e2 + "," + e3 + "," + e4 + "," + "}" == "{" + b + "}";
    RemoveBraces(b);
    SplitFour(e1, e2, e3, e4);
  }

  /** The four setters, by key. */
  lemma SetByKey(t: Snapshot, v: Int32)
    ensures Set(t, HEALTH, v) == t.(health := v)
    ensures Set(t, HUNGER, v) == t.(hunger := v)
    ensures Set(t, SLEEP, v) == t.(sleep := v)
    ensures Set(t, HAPPINESS, v) == t.(happiness := v)
  {
    assert HUNGER[2] != HEALTH[2];
    assert |SLEEP| != |HEALTH| && |SLEEP| != |HUNGER|;
    assert |HAPPINESS| != |HEALTH| && |HAPPINESS| != |HUNGER| && |HAPPINESS| != |SLEEP|;
  }

  /** One more entry read after `parts`. */
  lemma ApplyEntry(z: Snapshot, parts: seq<string>, whole: seq<string>, t: Snapshot, key: string, v: Int32)
    requires IsKey(key) && ApplyParts(z, parts) == Some(t)
    requires whole == parts + [Entry(key, v)]
    ensures ApplyParts(z, whole) == Some(Set(t, key, v))
  {
    ApplyPartsSnoc(z, parts, Entry(key, v));
    EntryApplies(t, key, v);
  }

  /** The `i`-th key `toJson` writes, and its value. */
  function KeyAt(i: nat): string
    requires i < 4
  {
    [HEALTH, HUNGER, SLEEP, HAPPINESS][i]
  }

  function ValueAt(s: Snapshot, i: nat): Int32
    requires i < 4
  {
    [s.health, s.hunger, s.sleep, s.happiness][i]
  }

  /** The four entries of `toJson`, in order. */
  function Entries(s: Snapshot): (es: seq<string>)
    ensures |es| == 4
  {
    [Entry(HEALTH, s.health), Entry(HUNGER, s.hunger), Entry(SLEEP, s.sleep), Entry(HAPPINESS, s.happiness)]
  }

  /** The first `n + 1` entries are the first `n` and the `n`-th. */
  lemma EntriesSnoc(s: Snapshot, n: nat)
    requires n < 4
    ensures Entries(s)[..n + 1] == Entries(s)[..n] + [Entry(KeyAt(n), ValueAt(s, n))]
  {
    var es := Entries(s);
    assert es[..n + 1] == es[..n] + [es[n]];
  }

  /** The fields of `s` the first `n` entries set; the others are still 0. */
  function ReadSoFar(s: Snapshot, n: nat): Snapshot
  {
    Snapshot(if n > 0 then s.health else 0, if n > 1 then s.hunger else 0,
             if n > 2 then s.sleep else 0, if n > 3 then s.happiness else 0)
  }

  /** Setting the `n`-th field moves from `n` entries read to `n + 1`. */
  lemma SetNext(s: Snapshot, n: nat)
    requires n < 4
    ensures Set(ReadSoFar(s, n), KeyAt(n), ValueAt(s, n)) == ReadSoFar(s, n + 1)
  {
    SetByKey(ReadSoFar(s, n), ValueAt(s, n));
  }

  /** Reading the first `n` entries from a zeroed state sets the first `n` fields. */
  lemma {:induction false} ApplyEntries(s: Snapshot, n: nat)
    requires n <= 4
    ensures ApplyParts(Snapshot(0, 0, 0, 0), Entries(s)[..n]) == Some(ReadSoFar(s, n))
  {
    if n > 0 {
      var es := Entries(s);
      ApplyEntries(s, n - 1);
      EntriesSnoc(s, n - 1);
      ApplyEntry(Snapshot(0, 0, 0, 0), es[..n - 1], es[..n], ReadSoFar(s, n - 1), KeyAt(n - 1), ValueAt(s, n - 1));
      SetNext(s, n - 1);
    }
  }

  /** `fromJson(toJson())` gives back all four fields, negative ones included. */
  lemma JsonRoundTrip(s: Snapshot)
    ensures Decode(Json(s)) == Some(s)
  {
    PartsOfJson(s);
    ApplyEntries(s, 4);
    assert Entries(s)[..4] == Entries(s);
  }
}
