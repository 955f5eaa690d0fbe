# Virtual Pet Game: the game logic

This project models the game logic of the Swing "Virtual Pet Game" (`PetGame/src`). That logic is spread
through the event handlers of the game's screens, and the model pulls it out:

- **The gameplay screen's state** (`Gameplay`). The score, the four vitals (happiness, health, sleep and
  hunger), the pet's number, the table of action cooldowns and the inventory screen. The vitals change
  only through `updateStats`. The score changes only through `addToScore`, and `checkStats` closes the
  screen when health has reached 0.
- **The three action screens** (`Feed`, `Sleep`, `Vet`). Each computes four new vitals with clamped
  expressions. It then takes 10 more health when hunger, sleep or happiness has reached 0, adds 20 to the
  score and asks for its own cooldown. Its "Return to home" button may hand out a reward from the
  inventory.
- **The cooldown reader** (`Cooldowns`). It finds the `"availableActions":` object in the configuration
  text, matches its braces by counting depth, and reads a `"cooldown":` integer for each of the four
  actions. Every failure gives 5 seconds.
- **The inventory screen** (`Inventory`). Its two item lists are changed in place. Around them:
  - the catalog of every item;
  - the loader that fills the lists from the configuration text;
  - the one-use consumption rule;
  - the `name,type,effect` line format of the save file;
  - the reward draw, which adds at most one catalog item not already held.
- **The save file** (`SaveFile`, `StartingScreen`). Saving writes six integer lines and then the
  inventory lines. The starting screen's load buttons read them back and open a gameplay screen on them.
- **`GameState`** (`GameStateJson`). A four-field object with setters, `toJson` and `fromJson`.
- **The parental-controls screen** (`ParentalControls`). The settings it reads from the configuration
  text, the password overlay and the playtime counters.
- **The pet-picking tutorial screen** (`PetRoster`). The names and descriptions of the three pets, read
  as the first, second and third occurrences of their keys, with fallbacks when there is no text.

`JavaLang` models the Java library behaviour the game relies on:

- `int` arithmetic with 32-bit wrap-around;
- `String.indexOf` (for a string and for a single character), `trim`, `split` (trailing empty fields dropped, `[s]` when the separator never occurs)
  and `equalsIgnoreCase`;
- `Integer.parseInt` and `Integer.toString`;
- `BufferedReader.readLine`.

`Scanning` holds what the hand-written readers share:

- the `"key":` pattern;
- "the text between the next two quotes";
- the end of an unquoted value;
- the walk from match to match that resumes just past each match.

Java `int` fields are `Int32` values, and every `+` and `-` the game applies to them wraps as in Java.
Saved games are loaded without clamping, so values outside 0-100 are reachable. A `String` that may be
`null` is an `Option<string>`. An exception that leaves an operation is a `None` result, a `null` object
or a `false` flag. Which one is used is said at each member.

## Model

| member | source | states |
|---|---|---|
| Gameplay.Session.constructor | PetGame/src/GameplayGUI.java:60-83 | The screen holds the given score, vitals and pet number. Its cooldowns are what the loader reads from the configuration text. Its inventory starts from the configured lists, or from one of each catalog item. |
| Gameplay.Session.UpdateStats | PetGame/src/GameplayGUI.java:295-300 | The four vitals become exactly the arguments. Score, cooldowns and closed state are unchanged. |
| Gameplay.Session.AddToScore | PetGame/src/GameplayGUI.java:370-373 | The score becomes the Java `int` sum, with no cap. Vitals and cooldowns are unchanged. |
| Gameplay.ScoreAccumulates | PetGame/src/GameplayGUI.java:370-373 | Two additions equal one addition of the sum, wrap-around included. |
| Gameplay.Session.CheckStats | PetGame/src/GameplayGUI.java:381-388 | The pet has died exactly when health is 0, and then the screen closes. Nothing else changes. |
| Gameplay.Session.LoadActionCooldownsFromJson | PetGame/src/GameplayGUI.java:539-590 | Each of the four actions is put with the value `LoadedTable` gives, whichever path the reader takes. |
| Gameplay.Session.PutDefaults | PetGame/src/GameplayGUI.java:541-546 | All four actions are put with 5. |
| Gameplay.Session.SaveToFile | PetGame/src/GameplayGUI.java:415-423 | The text written is the six integers in save order, then `inventoryToString()`. |
| Gameplay.Session.GetActionCooldown | PetGame/src/GameplayGUI.java:597-600 | The stored cooldown for a name the map holds, and 5 for any other name. |
| Gameplay.Session.UseFood | PetGame/src/InventoryScreen.java:501-518 | The item is consumed and hunger rises by the item's value, capped at 100. The other vitals stay. `died` holds exactly when health is 0, and the screen is closed afterwards exactly when it was closed before or the pet died. |
| Gameplay.Session.UseGift | PetGame/src/InventoryScreen.java:614-629 | The same as `UseFood`, for happiness and the gift's value, closing the screen in the same way. |
| Gameplay.Open | PetGame/src/GameplayGUI.java:60-83 | The screen is built, then the inventory text (when there is one) replaces the lists. A line with fewer than three fields makes the constructor throw (`null`). |
| Gameplay.Penalize | PetGame/src/feed.java:100-102 | Only health changes. Nothing changes while hunger, sleep and happiness are all positive. A non-negative health stays non-negative and never rises. |
| Gameplay.Boost | PetGame/src/InventoryScreen.java:512 | The raised vital is never above 100. For non-negative values whose sum fits an `int`, it is `min(100, stat + value)`. |
| Gameplay.BoostInRange | PetGame/src/InventoryScreen.java:512 | On the 0-100 scale, an item raises a vital to `min(100, stat + value)`. |
| Feed.Fed | PetGame/src/feed.java:95-102 | Whatever the old vitals, hunger and happiness end at most 100 and sleep ends non-negative. |
| Feed.FedOnScale | PetGame/src/feed.java:95-102 | On the 0-100 scale, feeding stays on the scale. Hunger becomes `min(100, h+10)`, happiness `min(100, p+2)` and sleep `max(0, s-1)`. Health is `min(100, h+8)`, less 10 (floored at 0) exactly when the old sleep was at most 1. |
| Feed.Press | PetGame/src/feed.java:95-110 | The vitals become `Fed` of the old ones and the score rises by 20. The cooldown is the "feed" entry. The pet dies exactly when health is 0. |
| Feed.ReturnHome | PetGame/src/feed.java:78-83 | One food draw. A reward is shown exactly when a name came back. |
| Sleep.Slept | PetGame/src/sleep.java:100-108 | Whatever the old vitals, sleep ends at most 100, happiness and health end non-negative, and hunger ends at 0 or at 10 and above. |
| Sleep.SleptOnScale | PetGame/src/sleep.java:100-108 | On the 0-100 scale, sleeping stays on the scale. Sleep becomes `min(100, s+10)`. Happiness becomes 0 when it was at most 5. Hunger becomes 0 when it was below 20, so it ends at 0 or at 10 and above. The penalty applies exactly when happiness was at most 5 or hunger below 20. |
| Sleep.Press | PetGame/src/sleep.java:100-116 | The vitals become `Slept` of the old ones, the score rises by 20 and the cooldown is the "goToSleep" entry. |
| Sleep.ReturnHome | PetGame/src/sleep.java:85-90 | One food draw. A reward is shown exactly when a name came back. |
| Vet.Healed | PetGame/src/vet.java:75-82 | Whatever the old vitals, sleep and hunger end non-negative. |
| Vet.HealedHappy | PetGame/src/vet.java:76 | Whatever the vitals, happiness after a visit is positive, so it never triggers the penalty. |
| Vet.HealedOnScale | PetGame/src/vet.java:75-82 | On the 0-100 scale, a visit stays on the scale. Sleep and hunger drop by 5, floored at 0. Happiness jumps to 100 when it was at most 3. The penalty applies exactly when sleep or hunger was at most 5. |
| Vet.Press | PetGame/src/vet.java:75-91 | The vitals become `Healed` of the old ones, the score rises by 20 and the cooldown is the "takeToVet" entry. |
| Vet.ReturnHome | PetGame/src/vet.java:101-105 | One gift draw, not a food draw. A reward is shown exactly when a name came back. |
| Cooldowns.MatchingBrace | PetGame/src/GameplayGUI.java:624-638 | -1 exactly when `openIndex` is -1, lies past the end, or the depth never returns to 0. Otherwise it is the least `i >= openIndex` at which the `{`/`}` depth over `[openIndex..i]` is 0. |
| Cooldowns.FirstZero | PetGame/src/GameplayGUI.java:627-637 | The first position from `i` on where the depth is 0, or -1 exactly when there is none. |
| Cooldowns.FindMatchingBrace | PetGame/src/GameplayGUI.java:624-638 | The one-pass loop with a running depth returns `MatchingBrace`. |
| Cooldowns.ActionsBlock | PetGame/src/GameplayGUI.java:553-572 | A block that is found runs from a `{` to its matching `}`, so it has at least two characters and starts with `{`. |
| Cooldowns.DefaultTable | PetGame/src/GameplayGUI.java:541-546 | All four actions are mapped to 5. |
| Cooldowns.LoadedTable | PetGame/src/GameplayGUI.java:539-590 | The loader always maps exactly the four actions. |
| Cooldowns.Table | PetGame/src/GameplayGUI.java:577-590 | The four entries, keyed by the four action names. |
| Cooldowns.PutFour | PetGame/src/GameplayGUI.java:577-590 | Four `put`s in a row equal adding the four-entry table to the map. |
| Cooldowns.FallbackWhenNoBlock | PetGame/src/GameplayGUI.java:540-572 | With no text, no `"availableActions":` key or no balanced block after it, every action gets 5. |
| Cooldowns.UnknownActionDefault | PetGame/src/GameplayGUI.java:597-600 | `getActionCooldown` gives 5 for any name other than the four actions. |
| Cooldowns.TableEntries | PetGame/src/GameplayGUI.java:574-590 | With a block, each action's cooldown is `parseCooldown` of that block. |
| Cooldowns.CooldownKeyAbsent | PetGame/src/GameplayGUI.java:644-648 | Without the action key, the cooldown is 5. |
| Cooldowns.CooldownFieldAbsent | PetGame/src/GameplayGUI.java:650-654 | Without `"cooldown":` anywhere after the action key, the cooldown is 5. |
| Cooldowns.CooldownUnterminated | PetGame/src/GameplayGUI.java:657-667 | When neither `,` nor `}` follows the `"cooldown":` found, the cooldown is 5. |
| Cooldowns.CooldownNotInteger | PetGame/src/GameplayGUI.java:669-677 | When the trimmed text before the nearer `,` or `}` is not an integer, the cooldown is 5. |
| Cooldowns.CooldownFound | PetGame/src/GameplayGUI.java:644-673 | Take the first `"cooldown":` after the first action key. When it is followed by the text of `n` and then `,` or `}`, the result is `n`, even if that `"cooldown":` belongs to a later action. |
| Cooldowns.NumberAtValue | PetGame/src/GameplayGUI.java:657-673 | The trimmed number before the nearer `,` or `}` is parsed back to its value. |
| Inventory.FoodCatalog | PetGame/src/InventoryScreen.java:84-89 | Six food items, each of type "food" and quantity 1. |
| Inventory.GiftCatalog | PetGame/src/InventoryScreen.java:91-94 | Four gift items, each of type "gift" and quantity 1. |
| Inventory.HungerValue | PetGame/src/InventoryScreen.java:476-498 | The hunger a food restores is between 0 and 20. |
| Inventory.HappinessValue | PetGame/src/InventoryScreen.java:594-610 | The happiness a gift adds is between 0 and 15. |
| Inventory.FoodEffectTexts | PetGame/src/InventoryScreen.java:84-89 | Every catalog food's effect text names the hunger that using it restores. |
| Inventory.GiftEffectTexts | PetGame/src/InventoryScreen.java:91-94 | Every catalog gift's effect text names the happiness that giving it adds. |
| Inventory.CatalogsDistinct | PetGame/src/InventoryScreen.java:84-94 | No item appears twice in either catalog. |
| Inventory.ShuffledIffPermutations | PetGame/src/InventoryScreen.java:43-47 | The orders the screens take for the two catalog sets are exactly the permutations of the catalogs. |
| Inventory.LoaderEffectsMatchCatalog | PetGame/src/InventoryScreen.java:270-282 | The loader gives each catalog name the catalog's own effect text. |
| Inventory.UnknownNamesDoNothing | PetGame/src/InventoryScreen.java:496-497 | A name outside the catalog restores and adds 0. |
| Inventory.Consumed | PetGame/src/InventoryScreen.java:503-507 | One use shortens the list by at most one and leaves every item before the used one in place. |
| Inventory.ConsumedOneUnit | PetGame/src/InventoryScreen.java:503-507 | One use removes exactly one unit from the list's total. |
| Inventory.ConsumedKeepsOthers | PetGame/src/InventoryScreen.java:503-507 | The other items stay, in order. The used item leaves the list exactly when its quantity was at most 1, zero and negative quantities included. Otherwise its quantity drops by one, and the least `int` wraps to the greatest. |
| Inventory.Draw | PetGame/src/InventoryScreen.java:735-752 | A drawn item is in the catalog and `isSame` to no held item. |
| Inventory.DrawAllHeld | PetGame/src/InventoryScreen.java:738-751 | When every catalog item is held, nothing is drawn, whatever the coins. |
| Inventory.DrawFirstFree | PetGame/src/InventoryScreen.java:738-748 | On heads, the first catalog item not held is drawn. |
| Inventory.Pick | PetGame/src/InventoryScreen.java:736-751 | The nested loops with the `found` flag compute `Draw`. |
| Inventory.RewardNamed | PetGame/src/InventoryScreen.java:744-751 | For a catalog in any order, a reward is a catalog item with a non-empty name. So "" means that nothing was added. |
| Inventory.LineItem | PetGame/src/InventoryScreen.java:718-723 | A line read as an item gives quantity 1. |
| Inventory.CustomItems | PetGame/src/InventoryScreen.java:711-725 | Only food reaches the food list and no food reaches the gift list. When no line throws, there is one item per line. |
| Inventory.AddLines | PetGame/src/InventoryScreen.java:717-725 | Lines read in order put only food in the food list and never food in the gift list, at most one item per line. |
| Inventory.RowItem | PetGame/src/InventoryScreen.java:693-695 | A savable item's line is read back as that item. |
| Inventory.InventoryText | PetGame/src/InventoryScreen.java:689-704 | The text is empty exactly when both lists are empty. |
| Inventory.AddLinesStops | PetGame/src/InventoryScreen.java:717-725 | The first line that throws stops the reading; the lines after it change nothing. |
| Inventory.InventoryRoundTrip | PetGame/src/InventoryScreen.java:689-728 | `customAddItems(inventoryToString())` restores both lists when there is at least one savable item (quantity 1, no comma or newline in a field, non-empty effect). |
| Inventory.EmptyInventoryNotRestored | PetGame/src/InventoryScreen.java:711-719 | An empty inventory saves as "", and reading "" back throws. |
| Inventory.FixedRoundTrip | PetGame/src/InventoryScreen.java:711-728 | With `""` read as the default inventory, as the gameplay constructor documents it, loading never fails on a save. Every non-empty savable inventory comes back unchanged, and an empty one comes back as the lists the screen started with. |
| Inventory.ExtractQuoted | PetGame/src/InventoryScreen.java:318-343 | After the first key from `pos`, the text between the next two quotes is returned. When the value is unquoted but a quote follows, the next quoted token is returned instead. |
| Inventory.ExtractBare | PetGame/src/InventoryScreen.java:318-336 | With no quote after the key, the value is the trimmed text up to the nearer `,` or `}`. |
| Inventory.ExtractAt | PetGame/src/InventoryScreen.java:318-324 | The value is read from just after the first `"key":` at or after `pos`. |
| Inventory.ExtractKeyAbsent | PetGame/src/InventoryScreen.java:318-321 | Without `"key":` at or after `pos`, the value is `null`. |
| Inventory.ExtractNoEnd | PetGame/src/InventoryScreen.java:318-334 | With no quote, no `,` and no `}` after the key, the value is `null`. |
| Inventory.ValueAfterUnclosed | PetGame/src/InventoryScreen.java:326-340 | After the colon, a single quote with no closing quote gives `null`. With `ExtractAt`, this is `extractValue`'s third `null`. |
| Inventory.ValueAfterQuoteFree | PetGame/src/InventoryScreen.java:326-342 | A value read after the colon never holds a quote. |
| Inventory.PartitionSplits | PetGame/src/InventoryScreen.java:296-303 | Splitting by type loses and duplicates nothing. The food list holds only food and the gift list only the rest. |
| Inventory.PartitionPlaces | PetGame/src/InventoryScreen.java:296-303 | Every food item ends in the food list and every other item in the gift list. |
| Inventory.LoadedItems | PetGame/src/InventoryScreen.java:250-305 | The loader makes one item per `"itemId":` occurrence. Food goes to the food list and gifts to the gift list. |
| Inventory.LoadedItemType | PetGame/src/InventoryScreen.java:285-303 | The item the loader makes at an `"itemId":` position lands in the gift list exactly when its id was found and contains "TOY", and in the food list exactly otherwise. |
| Inventory.ItemAt | PetGame/src/InventoryScreen.java:258-292 | A loaded item's type is always "food" or "gift". |
| Inventory.LoadedQuantity | PetGame/src/InventoryScreen.java:260-266 | The quantity is the integer the `"quantity":` field holds, and 1 when that field is missing or is not an integer. |
| Inventory.Store.constructor | PetGame/src/InventoryScreen.java:73-105 | A new screen holds the configured inventory when the text has one, and one of each catalog item otherwise. |
| Inventory.Store.PopulateInventory | PetGame/src/InventoryScreen.java:207-222 | The lists become the six catalog foods and the four catalog gifts. |
| Inventory.Store.LoadInventoryFromJson | PetGame/src/InventoryScreen.java:229-308 | Returns false exactly when there is no text, no `"inventory":` key, or no `[` or `]`, and then the lists are unchanged. Otherwise the lists are `LoadItems` of the array's text. |
| Inventory.Store.LoadItemsFrom | PetGame/src/InventoryScreen.java:245-305 | The loop leaves the lists equal to `LoadItems` of the array's text. |
| Inventory.Store.Add | PetGame/src/InventoryScreen.java:296-303 | The item goes at the end of the list its type names. |
| Inventory.Store.UseFood | PetGame/src/InventoryScreen.java:476-507 | The item at `i` is consumed, the gifts are unchanged, and the hunger it restores is returned. |
| Inventory.Store.UseGift | PetGame/src/InventoryScreen.java:594-618 | The gift at `i` is consumed, the food is unchanged, and the happiness it adds is returned. |
| Inventory.Store.InventoryToString | PetGame/src/InventoryScreen.java:689-704 | One `name,type,effect` line per item, food first, quantities left out. |
| Inventory.Store.CustomAddItems | PetGame/src/InventoryScreen.java:711-728 | Both lists are emptied and refilled with `CustomItems` of the text. `ok` is false when a line throws. |
| Inventory.Store.AddFoodRandom | PetGame/src/InventoryScreen.java:735-752 | Adds at most one catalog food not held and returns its name. Otherwise returns "" and changes nothing. The gifts never change. |
| Inventory.Store.AddGiftRandom | PetGame/src/InventoryScreen.java:759-777 | The same draw over the gift catalog. The food never changes. |
| SaveFile.RecordLines | PetGame/src/GameplayGUI.java:417-422 | Six lines, none holding a line terminator. |
| SaveFile.Encode | PetGame/src/GameplayGUI.java:415-423 | A written save never reads back as "no game saved". |
| SaveFile.ParseRecord | PetGame/src/startingScreen.java:175-180 | A record is read exactly when all six integer lines are readable. |
| SaveFile.Decode | PetGame/src/startingScreen.java:165-187 | "No game saved" exactly when the file is missing or empty. |
| SaveFile.NothingSaved | PetGame/src/startingScreen.java:169-171 | A missing or empty file holds no saved game. |
| SaveFile.ShortOrBadFile | PetGame/src/startingScreen.java:175-180 | Fewer than six lines, or a non-integer among the first six, is a load error. |
| SaveFile.ParseRecordFails | PetGame/src/startingScreen.java:175-180 | One unreadable integer among the six spoils the record. |
| SaveFile.SaveRoundTrip | PetGame/src/startingScreen.java:175-187 | Reading back a save gives the same six integers in the same order. It also gives the same inventory text, when that text is lines each ending in a newline. |
| SaveFile.SavedInventoryRoundTrip | PetGame/src/GameplayGUI.java:415-423 | Saving and loading keeps the six integers and the inventory lines of savable items. |
| StartingScreen.ReadSave | PetGame/src/startingScreen.java:165-187 | The six `readLine` calls and the append loop compute `Decode` of the file. |
| StartingScreen.LoadFromFile | PetGame/src/startingScreen.java:165-195 | No game, load error, crash or new screen, exactly as the file decodes. The new screen gets the six values unclamped and in order, and the lists read from the inventory text. |
| StartingScreen.EmptyInventorySaveCrashes | PetGame/src/startingScreen.java:183-192 | A save of an empty inventory reads back the six integers and the text "", which the gameplay screen cannot read. |
| JavaLang.ParseIntToString | PetGame/src/startingScreen.java:175-180 | `Integer.parseInt` of what `Integer.toString` wrote gives the same `int`, negatives included. |
| JavaLang.IndexOfCharAgrees | PetGame/src/secondTutorialPickPet.java:249-255 | `indexOf` of a one-character string finds the same index as a search for that character. |
| JavaLang.ContainsOccurs | PetGame/src/InventoryScreen.java:286 | `contains` holds exactly when the pattern starts at some index. |
| JavaLang.ReadJoinedLines | PetGame/src/startingScreen.java:183-187 | `readLine` gives back exactly the lines written with a newline after each, when no line holds a terminator. |
| Scanning.NthExists | PetGame/src/secondTutorialPickPet.java:240-263 | The `n`-th match exists exactly when there are more than `n` matches. |
| Scanning.MatchesAreNth | PetGame/src/InventoryScreen.java:250-305 | The matches found by resuming just past each are `Count` many, and the `n`-th is `Nth`. |
| GameStateJson.SetGet | PetGame/src/GameState.java:10-20 | A setter changes the field its key names and no other. |
| GameStateJson.GameState.constructor | PetGame/src/GameState.java:34 | A new object has all four fields 0. |
| GameStateJson.GameState.SetHealth | PetGame/src/GameState.java:11 | Only health changes, to the argument. |
| GameStateJson.GameState.SetHunger | PetGame/src/GameState.java:14 | Only hunger changes, to the argument. |
| GameStateJson.GameState.SetSleep | PetGame/src/GameState.java:17 | Only sleep changes, to the argument. |
| GameStateJson.GameState.SetHappiness | PetGame/src/GameState.java:20 | Only happiness changes, to the argument. |
| GameStateJson.Json | PetGame/src/GameState.java:23-30 | The text starts with `{` and ends with `}`. |
| GameStateJson.FromJson | PetGame/src/GameState.java:33-57 | The loop gives `null` exactly when `Decode` throws, and otherwise a fresh object holding `Decode` of the text. |
| GameStateJson.Without | PetGame/src/GameState.java:37 | `replace` leaves no occurrence of the character. |
| GameStateJson.ApplyPartsStops | PetGame/src/GameState.java:38-54 | After an exception, the later parts change nothing. |
| GameStateJson.LaterKeyWins | PetGame/src/GameState.java:38-53 | A later part with the same key overwrites the earlier value and leaves the other fields alone. |
| GameStateJson.UnknownKeyIgnored | PetGame/src/GameState.java:40-53 | A part whose key is none of the four changes nothing. |
| GameStateJson.BadValueThrows | PetGame/src/GameState.java:41-52 | A known key without an integer after the colon throws. |
| GameStateJson.AbsentKeyUntouched | PetGame/src/GameState.java:34-54 | A field no part names keeps its starting value, so an absent key leaves 0. |
| GameStateJson.PartsOfJson | PetGame/src/GameState.java:23-37 | Stripping the braces from `toJson` and splitting on `,` gives the four `"key": value` entries in order. The trailing comma leaves no empty part. |
| GameStateJson.JsonRoundTrip | PetGame/src/GameState.java:23-57 | `fromJson(toJson())` restores all four fields, negatives included. |
| ParentalControls.ExtractAbsent | PetGame/src/ParentalControlScreen.java:234-240 | Without the key there is no value (`null`). |
| ParentalControls.ExtractFound | PetGame/src/ParentalControlScreen.java:234-253 | After the first `"key":`, the text between the next two quotes is the value. An unquoted value therefore yields the next quoted token. |
| ParentalControls.ExtractValue | PetGame/src/ParentalControlScreen.java:234-253 | A value that is found never holds a quote. |
| ParentalControls.Load | PetGame/src/ParentalControlScreen.java:168-194 | The password becomes what `extractValue` gives for `parentPassword`, `null` included. |
| ParentalControls.ApplyAllValid | PetGame/src/ParentalControlScreen.java:169-190 | With every integer well formed, each present setting is read and each absent one keeps its value. `petRevival` is `equalsIgnoreCase("true")` of the text. |
| ParentalControls.BadTotalStops | PetGame/src/ParentalControlScreen.java:175-194 | A malformed total leaves every setting but the password as it was. |
| ParentalControls.BadAverageStops | PetGame/src/ParentalControlScreen.java:175-194 | A malformed average keeps the total already read and leaves the later settings. |
| ParentalControls.BadResetStops | PetGame/src/ParentalControlScreen.java:175-194 | A malformed reset time keeps the two counts already read and leaves the revival flag. |
| ParentalControls.UnlockExactly | PetGame/src/ParentalControlScreen.java:473-482 | The overlay opens exactly for a typed text equal to a stored password; a `null` password never opens it. A cancelled dialog is the only way to get "cancelled". |
| ParentalControls.Check | PetGame/src/ParentalControlScreen.java:473-482 | The attempt is "cancelled" exactly when the dialog gave `null`. |
| ParentalControls.ParentalControlScreen.constructor | PetGame/src/ParentalControlScreen.java:81-150 | Settings start at their defaults and are loaded from the text (or stay at their defaults with the failure message). The overlay is up. |
| ParentalControls.ParentalControlScreen.LoadParentalSettings | PetGame/src/ParentalControlScreen.java:166-201 | With text, the settings become `Load` of it and the success status is set. Without text, the settings stay and the failure status is set. |
| ParentalControls.ParentalControlScreen.EnterPassword | PetGame/src/ParentalControlScreen.java:465-483 | The result is `Check`. The overlay comes down exactly on `Unlocked`. The settings do not change. |
| ParentalControls.ParentalControlScreen.UpdatePlaytimeStats | PetGame/src/ParentalControlScreen.java:408-411 | The total rises by the minutes, with `int` wrap-around, and the average becomes the new total. |
| PetRoster.ExtractPetValue | PetGame/src/secondTutorialPickPet.java:233-265 | `extractPetValue` returns `PetValue`: the text between the two quotes after the match the walk stops at, and "Unknown" when the walk finds none. |
| PetRoster.PetValue | PetGame/src/secondTutorialPickPet.java:233-265 | A negative occurrence gives "Unknown", and no value holds a quote. |
| PetRoster.WalkToOccurrence | PetGame/src/secondTutorialPickPet.java:235-264 | The loop resumes just past each found key and stops at the `Nth` match for the wanted occurrence. It gives -1 when the matches run out first, which is always the case for a negative occurrence. |
| PetRoster.QuotedOrUnknown | PetGame/src/secondTutorialPickPet.java:249-260 | The text between the next two quotes, or "Unknown" when one is missing. |
| PetRoster.TooFewMatches | PetGame/src/secondTutorialPickPet.java:241-244 | With no more than `occurrence` matches, the value is "Unknown". |
| PetRoster.ValueBetweenQuotes | PetGame/src/secondTutorialPickPet.java:247-260 | The value is the text between the first two quotes after the (n+1)-th match. |
| PetRoster.MissingQuoteUnknown | PetGame/src/secondTutorialPickPet.java:249-258 | With fewer than two quotes after the match, the value is "Unknown". |
| PetRoster.ValueAtMatch | PetGame/src/secondTutorialPickPet.java:240-263 | The `n`-th value is read after the `n`-th element of the list of matches. |
| PetRoster.DefaultDescription | PetGame/src/secondTutorialPickPet.java:64-66 | The fallback description ends with the pet's name. |
| PetRoster.PetPicker.constructor | PetGame/src/secondTutorialPickPet.java:45-67 | With text, pets 1-3 take occurrences 0, 1 and 2 of "petName" and "petDescription". Without text, they are Luka, Anthony and Sam with their default descriptions. |

## Left out

- Swing presentation is not modelled: frames, layouts, painting, buttons, hover effects, dialogs, the
  overwrite prompt, the save and load messages, and the reward window (`RewardsGUI`).
- Time is not modelled. The cooldown countdown dialogs run on Swing timers; the model keeps only the
  cooldown value each action asks for.
- File I/O is not modelled. The configuration readers concatenate the file's lines with no separator;
  the model takes that text as an `Option<string>`, with `None` for a read failure. The save file is its
  text (`None` when the file does not exist). `FileWriter` is the text that would be written.
  `IOException` while saving or loading is not modelled.
- Randomness and hash order are parameters. The reward draw takes `Math.random() < 0.5` as a sequence of
  coin flips (a missing flip counts as tails). It takes the `HashSet` iteration order of the catalog as a
  sequence of the catalog's length that holds every catalog item (`Inventory.Shuffled`). That is exactly a
  permutation of the catalog (`Inventory.ShuffledIffPermutations`).
- The play action is not modelled: its `miniGame` class is not part of this model.
- Aliasing is not modelled. `addFoodRandom`/`addGiftRandom` insert the catalog's own object, and a later
  use changes that object's quantity. Items here are values, so a re-drawn item always arrives with
  quantity 1.
- `Inventory.Store.UseFood` and `UseGift` remove the used item by index. The source removes that object
  from the list, which is the same item since it was found by iterating that list.
- `equalsIgnoreCase` folds only ASCII letters. `Integer.parseInt` accepts only ASCII digits. `trim`
  removes every character up to the space.
- `dailyPlaytimeLimit` is left out: it is never read or written after its initialiser. The status text
  of a successful load is the fixed HTML string the source builds; the unused `displayedPass` is left
  out.
- Getters are left out: the model reads the fields directly.
- The rest of the parental-controls screen (the back button, the time windows) and the other tutorial
  screens are left out.
- The feed, sleep and vet "Return to home" buttons compare the item with `!=` on references. The model
  compares contents, which agrees here because the empty result is the literal `""` and every other
  result is a non-empty name.

## Findings

| source | as written | input that shows it | evidently intended | confidence | as-written member | corrected member |
|---|---|---|---|---|---|---|
| PetGame/src/InventoryScreen.java:711-725 | `customAddItems` splits its text on newlines and reads field 1 of each line. `"".split("\n")` is `[""]`, and `"".split(",")` is `[""]`, so field 1 is out of bounds. | Use every item, save, then load that save. The save is the six integer lines only, so the starting screen passes `""` to the gameplay screen, which throws while building its inventory. The error is not caught, since only `IOException` and `NumberFormatException` are. | The constructor's documentation (`GameplayGUI.java:28-29` and `:58`) says `""` means the default inventory. So `""` should keep the lists the new inventory screen starts with, and loading a save of an empty inventory should give the default inventory instead of failing. | not executed | Inventory.EmptyInventoryNotRestored | Inventory.FixedRoundTrip |
