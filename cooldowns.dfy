/**
  The cooldown registry of the gameplay screen: the hand-rolled reader that
  finds the "availableActions" object in the configuration text, matches its
  braces by depth counting, and reads a "cooldown" integer for each of the
  four actions, falling back to 5 seconds on every failure.
*/
module Cooldowns {
  import opened JavaLang
  import opened Scanning

  /** The duration used whenever nothing better can be read. */
  const DEFAULT_COOLDOWN: int := 5

  const BLOCK_KEY: string := "\"availableActions\":"
  const COOLDOWN_KEY: string := "\"cooldown\":"

  /** The four action names the loader looks up, in the order it looks them up. */
  const ACTIONS: seq<string> := ["feed", "goToSleep", "play", "takeToVet"]

  /** What one character does to the brace depth. */
  function Delta(c: char): int
  {
    if c == '{' then 1 else if c == '}' then -1 else 0
  }

  /** The brace depth after reading `s[open..i]`, both ends included:
      the count of `{` minus the count of `}`. */
  function Balance(s: string, open: nat, i: nat): int
    requires open <= i < |s|
    decreases i - open
  {
    (if i == open then 0 else Balance(s, open, i - 1)) + Delta(s[i])
  }

  /** `findMatchingBrace` as a specification: the least `i >= open` at which
      the depth over `s[open..i]` is back to 0, or -1 when `open` is -1, lies
      past the end, or the depth never returns to 0. */
  function MatchingBrace(s: string, open: int): (r: int)
    requires open >= -1
    ensures r == -1 || (0 <= open <= r < |s| && Balance(s, open, r) == 0)
    ensures r != -1 ==> forall i :: open <= i < r ==> Balance(s, open, i) != 0
    ensures r == -1 <==>
      open == -1 || open >= |s| || forall i :: open <= i < |s| ==> Balance(s, open, i) != 0
  {
    if open == -1 || open >= |s| then -1 else FirstZero(s, open, open)
  }

  function FirstZero(s: string, open: nat, i: nat): (r: int)
    requires open <= i <= |s|
    ensures r == -1 || (i <= r < |s| && Balance(s, open, r) == 0)
    ensures r != -1 ==> forall j :: i <= j < r ==> Balance(s, open, j) != 0
    ensures r == -1 <==> forall j :: i <= j < |s| ==> Balance(s, open, j) != 0
    decreases |s| - i
  {
    if i == |s| then -1
    else if Balance(s, open, i) == 0 then i
    else FirstZero(s, open, i + 1)
  }

  /** `findMatchingBrace`: one pass that keeps the running depth. */
  method FindMatchingBrace(json: string, openIndex: int) returns (r: int)
    requires openIndex >= -1
    ensures r == MatchingBrace(json, openIndex)
  {
    if openIndex == -1 || openIndex >= |json| {
      return -1;
    }
    var balance := 0;
    for i := openIndex to |json|
      invariant i > openIndex ==> balance == Balance(json, openIndex, i - 1)
      invariant i == openIndex ==> balance == 0
      invariant forall j :: openIndex <= j < i ==> Balance(json, openIndex, j) != 0
    {
      var c := json[i];
      if c == '{' {
        balance := balance + 1;
      }
      if c == '}' {
        balance := balance - 1;
      }
      assert balance == Balance(json, openIndex, i);
      if balance == 0 {
        return i;
      }
    }
    return -1;
  }

  /** `parseCooldown`: after the first `"<actionKey>":` in the block, the first
      `"cooldown":` (searched to the end of the block, not only inside the
      action's own object), then the trimmed text up to the nearer `,` or `}`
      as an `int`; 5 when any of these steps fails. */
  function ParseCooldown(block: string, actionKey: string): int
  {
    var index := IndexOf(block, KeyPattern(actionKey), 0);
    if index == -1 then DEFAULT_COOLDOWN else CooldownAfter(block, index)
  }

  /** The value of the first `"cooldown":` at or after `from`, or 5. */
  function CooldownAfter(block: string, from: nat): int
  {
    var cdIndex := IndexOf(block, COOLDOWN_KEY, from);
    if cdIndex == -1 then DEFAULT_COOLDOWN else NumberAt(block, cdIndex + |COOLDOWN_KEY|)
  }

  /** The trimmed text from `numberStart` to the nearer `,` or `}` as an
      `int`, or 5 when neither follows or the text is not an integer. */
  function NumberAt(block: string, numberStart: nat): int
  {
    var endPos := ValueEnd(block, numberStart);
    if endPos == -1 then DEFAULT_COOLDOWN
    else
      match ParseInt(Trim(block[numberStart..endPos]))
      case Some(v) => v
      case None => DEFAULT_COOLDOWN
  }

  /** Every action gets the default. */
  function DefaultTable(): (t: map<string, int>)
    ensures t.Keys == {"feed", "goToSleep", "play", "takeToVet"}
    ensures forall a :: a in t ==> t[a] == DEFAULT_COOLDOWN
  {
    Table(5, 5, 5, 5)
  }

  /** The `{...}` block that follows `"availableActions":`, or `None` when the
      key is missing, no `{` follows it, or its braces never balance. */
  function ActionsBlock(json: string): (b: Option<string>)
    ensures b.Some? ==> 2 <= |b.value| && b.value[0] == '{'
  {
    var startIndex := IndexOf(json, BLOCK_KEY, 0);
    if startIndex == -1 then None
    else
      var braceOpen := IndexOfChar(json, '{', startIndex);
      var braceClose := MatchingBrace(json, braceOpen);
      if braceOpen == -1 || braceClose == -1 then None
      else Some(json[braceOpen..braceClose + 1])
  }

  /** What `loadActionCooldownsFromJson` puts into the map, given the text of
      the configuration file (`None` when it cannot be read). */
  function LoadedTable(json: Option<string>): (t: map<string, int>)
    ensures t.Keys == {"feed", "goToSleep", "play", "takeToVet"}
  {
    if json.None? then DefaultTable()
    else
      match ActionsBlock(json.value)
      case None => DefaultTable()
      case Some(block) => Table(ParseCooldown(block, "feed"), ParseCooldown(block, "goToSleep"),
                                ParseCooldown(block, "play"), ParseCooldown(block, "takeToVet"))
  }

  /** The four entries the loader puts, in the order of `ACTIONS`. */
  function Table(feed: int, goToSleep: int, play: int, takeToVet: int): (t: map<string, int>)
    ensures t.Keys == {"feed", "goToSleep", "play", "takeToVet"}
  {
    map["feed" := feed, "goToSleep" := goToSleep, "play" := play, "takeToVet" := takeToVet]
  }

  /** Four `put`s in a row add the four entries to what the map held. */
  lemma PutFour(m: map<string, int>, feed: int, goToSleep: int, play: int, takeToVet: int)
    ensures m["feed" := feed]["goToSleep" := goToSleep]["play" := play]["takeToVet" := takeToVet]
      == m + Table(feed, goToSleep, play, takeToVet)
  {
  }

  /** `getActionCooldown`: the stored duration, or 5 for a name not stored. */
  function Lookup(table: map<string, int>, actionName: string): int
  {
    if actionName in table then table[actionName] else DEFAULT_COOLDOWN
  }

  /** With no readable file, no "availableActions" key, or no balanced
      block after it, all four actions get 5. */
  lemma FallbackWhenNoBlock(json: Option<string>)
    requires json.None? || ActionsBlock(json.value).None?
    ensures forall a :: a in ACTIONS ==> Lookup(LoadedTable(json), a) == DEFAULT_COOLDOWN
  {
  }

  /** A name that is not one of the four actions always gets 5. */
  lemma UnknownActionDefault(json: Option<string>, name: string)
    requires name !in ACTIONS
    ensures Lookup(LoadedTable(json), name) == DEFAULT_COOLDOWN
  {
  }

  /** The four actions are read independently from the same block. */
  lemma TableEntries(json: string, block: string)
    requires ActionsBlock(json) == Some(block)
    ensures forall a :: a in ACTIONS ==> Lookup(LoadedTable(Some(json)), a) == ParseCooldown(block, a)
  {
  }

  /** The action key missing from the block gives 5. */
  lemma CooldownKeyAbsent(block: string, actionKey: string)
    requires AbsentFrom(block, KeyPattern(actionKey), 0)
    ensures ParseCooldown(block, actionKey) == DEFAULT_COOLDOWN
  {
    IndexOfAbsent(block, KeyPattern(actionKey), 0);
  }

  /** No `"cooldown":` anywhere after the action key gives 5. */
  lemma CooldownFieldAbsent(block: string, actionKey: string, k: int)
    requires FirstAt(block, KeyPattern(actionKey), 0, k)
    requires AbsentFrom(block, COOLDOWN_KEY, k)
    ensures ParseCooldown(block, actionKey) == DEFAULT_COOLDOWN
  {
    IndexOfFirst(block, KeyPattern(actionKey), 0, k);
    IndexOfAbsent(block, COOLDOWN_KEY, k);
  }

  /** The configured value is returned: when the first `"cooldown":` after
      the first action key is followed by the decimal text of `n`, optional
      blanks around it, and then `,` or `}`, the result is `n` — even when
      that `"cooldown":` belongs to a later action's object. */
  lemma CooldownFound(block: string, actionKey: string, k: int, c: int, e: int, n: Int32)
    requires FirstAt(block, KeyPattern(actionKey), 0, k)
    requires FirstAt(block, COOLDOWN_KEY, k, c)
    requires c + |COOLDOWN_KEY| <= e < |block| && (block[e] == ',' || block[e] == '}')
    requires Trim(block[c + |COOLDOWN_KEY|..e]) == IntToString(n)
    ensures ParseCooldown(block, actionKey) == n
  {
    IndexOfFirst(block, KeyPattern(actionKey), 0, k);
    IndexOfFirst(block, COOLDOWN_KEY, k, c);
    NumberAtValue(block, c + |COOLDOWN_KEY|, e, n);
  }

  /** Neither `,` nor `}` after the first `"cooldown":` gives 5. */
  lemma CooldownUnterminated(block: string, actionKey: string, k: int, c: int)
    requires FirstAt(block, KeyPattern(actionKey), 0, k)
    requires FirstAt(block, COOLDOWN_KEY, k, c)
    requires CharAbsentFrom(block, ',', c + |COOLDOWN_KEY|) && CharAbsentFrom(block, '}', c + |COOLDOWN_KEY|)
    ensures ParseCooldown(block, actionKey) == DEFAULT_COOLDOWN
  {
    IndexOfFirst(block, KeyPattern(actionKey), 0, k);
    IndexOfFirst(block, COOLDOWN_KEY, k, c);
  }

  /** Trimmed text before the nearer `,` or `}` that is not an integer
      (`NumberFormatException`) gives 5. */
  lemma CooldownNotInteger(block: string, actionKey: string, k: int, c: int, e: int)
    requires FirstAt(block, KeyPattern(actionKey), 0, k)
    requires FirstAt(block, COOLDOWN_KEY, k, c)
    requires c + |COOLDOWN_KEY| <= e < |block| && (block[e] == ',' || block[e] == '}')
    requires forall i :: c + |COOLDOWN_KEY| <= i < e ==> block[i] != ',' && block[i] != '}'
    requires ParseInt(Trim(block[c + |COOLDOWN_KEY|..e])).None?
    ensures ParseCooldown(block, actionKey) == DEFAULT_COOLDOWN
  {
    IndexOfFirst(block, KeyPattern(actionKey), 0, k);
    IndexOfFirst(block, COOLDOWN_KEY, k, c);
    ValueEndAt(block, c + |COOLDOWN_KEY|, e);
  }

  lemma NumberAtValue(block: string, lo: nat, e: nat, n: Int32)
    requires lo <= e < |block| && (block[e] == ',' || block[e] == '}')
    requires Trim(block[lo..e]) == IntToString(n)
    ensures NumberAt(block, lo) == n
  {
    NoSeparatorInNumber(block, lo, e, n);
    ValueEndAt(block, lo, e);
    ParseIntToString(n);
  }

  /** Blanks and the characters of a number are neither `,` nor `}`. */
  lemma NoSeparatorInNumber(block: string, lo: nat, hi: nat, n: Int32)
    requires lo <= hi <= |block|
    requires Trim(block[lo..hi]) == IntToString(n)
    ensures forall i :: lo <= i < hi ==> block[i] != ',' && block[i] != '}'
  {
    var text := block[lo..hi];
    TrimKeeps(text);
    forall i | lo <= i < hi
      ensures block[i] != ',' && block[i] != '}'
    {
      assert block[i] == text[i - lo];
    }
  }
}
