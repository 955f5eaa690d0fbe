/**
  The save file: six integer lines written by the gameplay screen's save
  button, followed by the inventory lines, and the reading of that file by
  the starting screen's load buttons.
*/
module SaveFile {
  import opened JavaLang
  import opened Inventory

  /** The six integers a save holds, in the order they are written. */
  datatype Record = Record(score: Int32, happiness: Int32, health: Int32,
                           sleep: Int32, hunger: Int32, petNumber: Int32)

  /** The first six lines of a save, one integer per line. */
  function RecordLines(r: Record): (ls: seq<string>)
    ensures |ls| == 6
    ensures forall i :: 0 <= i < 6 ==> '\n' !in ls[i] && '\r' !in ls[i]
  {
    [IntToString(r.score), IntToString(r.happiness), IntToString(r.health),
     IntToString(r.sleep), IntToString(r.hunger), IntToString(r.petNumber)]
  }

  /** What the save writes: each integer and a newline, then the inventory text. */
  function Encode(r: Record, inventoryText: string): (text: string)
    ensures Decode(Some(text)) != NoGameSaved
  {
    JoinLines(RecordLines(r)) + inventoryText
  }

  /** What loading a save file can give. */
  datatype Decoded =
    | NoGameSaved
    | LoadError
    | Decoded(record: Record, inventoryText: string)

  /** `Integer.parseInt` of the `i`-th `readLine`: `None` when that line is
      missing (`parseInt(null)`) or is not an integer. */
  function ReadInt(lines: seq<string>, i: nat): (r: Option<Int32>)
    ensures r.Some? ==> i < |lines|
  {
    if i < |lines| then ParseInt(lines[i]) else None
  }

  /** The six integers read from the first six lines, or `None` when one of
      them cannot be read. */
  function ParseRecord(lines: seq<string>): (r: Option<Record>)
    ensures r.Some? ==> |lines| >= 6
    ensures r.Some? <==> forall i :: 0 <= i < 6 ==> ReadInt(lines, i).Some?
  {
    match (ReadInt(lines, 0), ReadInt(lines, 1), ReadInt(lines, 2),
           ReadInt(lines, 3), ReadInt(lines, 4), ReadInt(lines, 5))
    case (Some(score), Some(happiness), Some(health), Some(sleep), Some(hunger), Some(petNumber)) =>
      Some(Record(score, happiness, health, sleep, hunger, petNumber))
    case _ => None
  }

  /** `loadFromFile` on the file's text (`None` when the file does not exist):
      a missing or empty file holds no game; otherwise the first six lines are
      the integers and every later line, each followed by a newline, is the
      inventory text. */
  function Decode(file: Option<string>): (d: Decoded)
    ensures d == NoGameSaved <==> file.None? || file.value == ""
  {
    if file.None? || file.value == "" then NoGameSaved
    else
      var lines := ReadLines(file.value);
      match ParseRecord(lines)
      case None => LoadError
      case Some(r) => Decoded(r, JoinLines(lines[6..]))
  }

  /** A missing or empty file gives "no game saved". */
  lemma NothingSaved(file: Option<string>)
    requires file.None? || file.value == ""
    ensures Decode(file) == NoGameSaved
  {
  }

  /** Fewer than six lines, or a line among the first six that is not an
      integer, gives a load error. */
  lemma ShortOrBadFile(file: string, i: nat)
    requires file != ""
    requires |ReadLines(file)| < 6 || (i < 6 && i < |ReadLines(file)| && ParseInt(ReadLines(file)[i]).None?)
    ensures Decode(Some(file)) == LoadError
  {
    var lines := ReadLines(file);
    ParseRecordFails(lines, if |lines| < 6 then 5 else i);
  }

  /** One unreadable integer among the six spoils the record. */
  lemma ParseRecordFails(lines: seq<string>, i: nat)
    requires i < 6 && ReadInt(lines, i).None?
    ensures ParseRecord(lines).None?
  {
  }

  /** The lines of a list of items are its rows, each followed by a newline. */
  lemma {:induction false} LinesAreRows(items: seq<Item>)
    ensures Lines(items) == JoinLines(Rows(items))
  {
    if items != [] {
      LinesAreRows(items[1..]);
      assert Rows(items)[1..] == Rows(items[1..]);
    }
  }

  /** Reading back a save gives the same six integers and the same
      inventory text, whenever that text is lines that each end in a newline. */
  lemma {:induction false} SaveRoundTrip(r: Record, ls: seq<string>)
    requires forall i :: 0 <= i < |ls| ==> '\n' !in ls[i] && '\r' !in ls[i]
    ensures Decode(Some(Encode(r, JoinLines(ls)))) == Decoded(r, JoinLines(ls))
  {
    var head := RecordLines(r);
    var all := head + ls;
    JoinLinesAppend(head, ls);
    ReadJoinedLines(all);
    assert Encode(r, JoinLines(ls)) != "" by {
      assert JoinLines(head) == head[0] + "\n" + JoinLines(head[1..]);
    }
    ParseIntToString(r.score);
    ParseIntToString(r.happiness);
    ParseIntToString(r.health);
    ParseIntToString(r.sleep);
    ParseIntToString(r.hunger);
    ParseIntToString(r.petNumber);
    assert all[..6] == head && all[6..] == ls;
    assert ParseRecord(all) == Some(r);
  }

  /** Saving and loading keeps the six integers and the inventory lines,
      provided no item field holds a comma, a newline or a carriage return. */
  lemma SavedInventoryRoundTrip(r: Record, food: seq<Item>, gifts: seq<Item>)
    requires forall i :: 0 <= i < |food| ==> Savable(food[i], true)
    requires forall i :: 0 <= i < |gifts| ==> Savable(gifts[i], false)
    requires forall x :: x in food + gifts ==> '\r' !in Row(x)
    ensures Decode(Some(Encode(r, InventoryText(food, gifts)))) == Decoded(r, InventoryText(food, gifts))
  {
    var all := food + gifts;
    LinesAppend(food, gifts);
    LinesAreRows(all);
    var rows := Rows(all);
    forall i | 0 <= i < |rows|
      ensures '\n' !in rows[i] && '\r' !in rows[i]
    {
      assert all[i] in all;
      if i < |food| {
        RowItem(food[i], true);
      } else {
        assert all[i] == gifts[i - |food|];
        RowItem(gifts[i - |food|], false);
      }
    }
    SaveRoundTrip(r, rows);
  }
}
