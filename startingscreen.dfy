/**
  The starting screen's load buttons: reading a save file line by line and
  opening the gameplay screen on what was read.
*/
module StartingScreen {
  import opened JavaLang
  import opened Inventory
  import opened SaveFile
  import opened Cooldowns
  import opened Gameplay

  /** What pressing a load button leads to. `Crashed` is the exception that
      the gameplay screen's constructor lets escape when an inventory line
      has fewer than three fields. */
  datatype Outcome =
    | NoGameSaved
    | LoadError
    | Crashed
    | Started(session: Session)

  /** The reading part of `loadFromFile`: six `parseInt(readLine())` calls,
      then a loop that appends every remaining line and a newline. */
  method ReadSave(file: Option<string>) returns (d: Decoded)
    ensures d == Decode(file)
  {
    if file.None? || file.value == "" {
      return Decoded.NoGameSaved;
    }
    var lines := ReadLines(file.value);
    var score := ReadInt(lines, 0);
    if score.None? { return Decoded.LoadError; }
    var happiness := ReadInt(lines, 1);
    if happiness.None? { return Decoded.LoadError; }
    var health := ReadInt(lines, 2);
    if health.None? { return Decoded.LoadError; }
    var sleep := ReadInt(lines, 3);
    if sleep.None? { return Decoded.LoadError; }
    var hunger := ReadInt(lines, 4);
    if hunger.None? { return Decoded.LoadError; }
    var petNumber := ReadInt(lines, 5);
    if petNumber.None? { return Decoded.LoadError; }
    assert ParseRecord(lines) == Some(Record(score.value, happiness.value, health.value, sleep.value, hunger.value,
                                             petNumber.value));
    var inventoryData := "";
    var i := 6;
    while i < |lines|
      invariant 6 <= i <= |lines|
      invariant inventoryData == JoinLines(lines[6..i])
    {
      JoinLinesSnoc(lines[6..i], lines[i]);
      assert lines[6..i + 1] == lines[6..i] + [lines[i]];
      inventoryData := inventoryData + lines[i] + "\n";
      i := i + 1;
    }
    assert lines[6..i] == lines[6..];
    return Decoded(Record(score.value, happiness.value, health.value, sleep.value, hunger.value,
                          petNumber.value), inventoryData);
  }

  /** `loadFromFile`: the values read are passed unchanged, in the same
      order, to a new gameplay screen together with the inventory text. */
  method LoadFromFile(file: Option<string>, config: Option<string>,
                      foodOrder: seq<Item>, giftOrder: seq<Item>) returns (o: Outcome)
    requires Shuffled(foodOrder, giftOrder)
    ensures o.NoGameSaved? <==> Decode(file).NoGameSaved?
    ensures o.LoadError? <==> Decode(file).LoadError?
    ensures o.Crashed? <==> Decode(file).Decoded? && !CustomItems(Decode(file).inventoryText).complete
    ensures o.Started? ==>
      fresh(o.session) && !o.session.closed &&
      o.session.SavedRecord() == Decode(file).record &&
      o.session.inventory.food == CustomItems(Decode(file).inventoryText).food &&
      o.session.inventory.gifts == CustomItems(Decode(file).inventoryText).gifts &&
      o.session.cooldowns == LoadedTable(config)
  {
    var d := ReadSave(file);
    match d
    case NoGameSaved =>
      return Outcome.NoGameSaved;
    case LoadError =>
      return Outcome.LoadError;
    case Decoded(r, text) =>
      var s := Open(r.score, r.happiness, r.health, r.sleep, r.hunger, r.petNumber, Some(text),
                    config, foodOrder, giftOrder);
      if s == null {
        return Crashed;
      }
      return Started(s);
  }

  /** A game saved with an empty inventory cannot be loaded again: the six
      integers are read back, but the empty inventory text is one empty
      line, and the gameplay screen throws on it. */
  lemma EmptyInventorySaveCrashes(r: Record)
    ensures Decode(Some(Encode(r, InventoryText([], [])))) == Decoded(r, "")
    ensures !CustomItems(InventoryText([], [])).complete
  {
    SaveRoundTrip(r, []);
    EmptyInventoryNotRestored();
  }
}
