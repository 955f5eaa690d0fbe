/**
  The inventory screen's store: two lists of items (food and gifts) that the
  game changes in place, the fixed catalog of every item that exists, the
  loader that fills the lists from the configuration text, the one-use
  consumption rule, the `name,type,effect` line format the save file uses,
  and the reward draw that may add one item not already held.
*/
module Inventory {
  import opened JavaLang
  import opened Scanning

  /** An inventory item. */
  datatype Item = Item(name: string, itype: string, effect: string, quantity: Int32)

  /** `isSame`: equal name, type and effect; the quantity does not matter. */
  predicate IsSame(a: Item, b: Item)
  {
    a.name == b.name && a.itype == b.itype && a.effect == b.effect
  }

  /** Some item of `held` is the same as `item`. */
  predicate Held(held: seq<Item>, item: Item)
  {
    exists k :: 0 <= k < |held| && IsSame(item, held[k])
  }

  // ---------------------------------------------------------------- catalog

  /** Every food item that exists, one of each, in the order the default
      inventory lists them. */
  function FoodCatalog(): (c: seq<Item>)
    ensures |c| == 6
    ensures forall i :: 0 <= i < |c| ==> c[i].itype == "food" && c[i].quantity == 1
  {
    [Item("Apple", "food", "Restores 10 hunger", 1),
     Item("Carrot", "food", "Restores 5 hunger", 1),
     Item("Bone", "food", "Restores 15 hunger", 1),
     Item("Fish", "food", "Restores 12 hunger", 1),
     Item("Chicken", "food", "Restores 13 hunger", 1),
     Item("Steak", "food", "Restores 20 hunger", 1)]
  }

  /** Every gift item that exists. */
  function GiftCatalog(): (c: seq<Item>)
    ensures |c| == 4
    ensures forall i :: 0 <= i < |c| ==> c[i].itype == "gift" && c[i].quantity == 1
  {
    [Item("Toy", "gift", "Increases happiness +10", 1),
     Item("Teddy Bear", "gift", "Increases happiness +15", 1),
     Item("Ball", "gift", "Increases happiness +9", 1),
     Item("Frisbee", "gift", "Increases happiness +12", 1)]
  }

  /** `order` holds every item of `catalog` and is no longer: as the
      catalog's items are distinct, `order` is the catalog in some order. */
  predicate Reorders(order: seq<Item>, catalog: seq<Item>)
  {
    |order| == |catalog| && forall i :: 0 <= i < |catalog| ==> catalog[i] in order
  }

  /** No item appears twice in `c`. */
  predicate Distinct(c: seq<Item>)
  {
    forall i, j :: 0 <= i < j < |c| ==> c[i] != c[j]
  }

  /** Both catalogs list distinct items. */
  lemma CatalogsDistinct()
    ensures Distinct(FoodCatalog()) && Distinct(GiftCatalog())
  {
  }

  /** Reordering a catalog of distinct items is a permutation of it. */
  lemma {:induction false} ReordersIsPermutation(order: seq<Item>, catalog: seq<Item>)
    requires Reorders(order, catalog) && Distinct(catalog)
    ensures multiset(order) == multiset(catalog)
    decreases |catalog|
  {
    if catalog != [] {
      var n := |catalog| - 1;
      var x := catalog[n];
      var k :| 0 <= k < |order| && order[k] == x;
      var rest := order[..k] + order[k + 1..];
      assert order == order[..k] + [x] + order[k + 1..];
      forall i | 0 <= i < n
        ensures catalog[..n][i] in rest
      {
        var m :| 0 <= m < |order| && order[m] == catalog[i];
        assert m != k;
        if m < k {
          assert rest[m] == catalog[i];
        } else {
          assert rest[m - 1] == catalog[i];
        }
      }
      ReordersIsPermutation(rest, catalog[..n]);
      assert catalog == catalog[..n] + [x];
    }
  }

  /** For a catalog of distinct items, reordering it is exactly permuting it. */
  lemma ReordersIffPermutation(order: seq<Item>, catalog: seq<Item>)
    requires Distinct(catalog)
    ensures Reorders(order, catalog) <==> multiset(order) == multiset(catalog)
  {
    if Reorders(order, catalog) {
      ReordersIsPermutation(order, catalog);
    }
    if multiset(order) == multiset(catalog) {
      assert |order| == |multiset(order)| == |multiset(catalog)| == |catalog|;
      forall i | 0 <= i < |catalog|
        ensures catalog[i] in order
      {
        assert catalog[i] in multiset(catalog);
      }
    }
  }

  /** The two lists are the food and the gift catalogs in some order. */
  predicate Shuffled(foodOrder: seq<Item>, giftOrder: seq<Item>)
  {
    Reorders(foodOrder, FoodCatalog()) && Reorders(giftOrder, GiftCatalog())
  }

  /** The shuffled lists are exactly the permutations of the two catalogs. */
  lemma ShuffledIffPermutations(foodOrder: seq<Item>, giftOrder: seq<Item>)
    ensures Shuffled(foodOrder, giftOrder) <==>
      multiset(foodOrder) == multiset(FoodCatalog()) && multiset(giftOrder) == multiset(GiftCatalog())
  {
    CatalogsDistinct();
    ReordersIffPermutation(foodOrder, FoodCatalog());
    ReordersIffPermutation(giftOrder, GiftCatalog());
  }

  /** The hunger a food restores, looked up by exact name; 0 for any other name. */
  function HungerValue(name: string): (v: int)
    ensures 0 <= v <= 20
  {
    if name == "Apple" then 10
    else if name == "Carrot" then 5
    else if name == "Bone" then 15
    else if name == "Fish" then 12
    else if name == "Chicken" then 13
    else if name == "Steak" then 20
    else 0
  }

  /** The happiness a gift adds, looked up by exact name; 0 for any other name. */
  function HappinessValue(name: string): (v: int)
    ensures 0 <= v <= 15
  {
    if name == "Toy" then 10
    else if name == "Teddy Bear" then 15
    else if name == "Ball" then 9
    else if name == "Frisbee" then 12
    else 0
  }

  /** The effect text the loader gives an item, chosen by its name ignoring case. */
  function EffectFor(name: string): string
  {
    if EqualsIgnoreCase(name, "Apple") then "Restores 10 hunger"
    else if EqualsIgnoreCase(name, "Carrot") then "Restores 5 hunger"
    else if EqualsIgnoreCase(name, "Bone") then "Restores 15 hunger"
    else if EqualsIgnoreCase(name, "Fish") then "Restores 12 hunger"
    else if EqualsIgnoreCase(name, "Chicken") then "Restores 13 hunger"
    else if EqualsIgnoreCase(name, "Steak") then "Restores 20 hunger"
    else if EqualsIgnoreCase(name, "Toy") then "Increases happiness +10"
    else if EqualsIgnoreCase(name, "Teddy Bear") then "Increases happiness +15"
    else if EqualsIgnoreCase(name, "Ball") then "Increases happiness +9"
    else if EqualsIgnoreCase(name, "Frisbee") then "Increases happiness +12"
    else "Some effect"
  }

  /** Every catalog food's effect text names the hunger the use table restores. */
  lemma FoodEffectTexts()
    ensures forall i :: 0 <= i < 6 ==>
      FoodCatalog()[i].effect == "Restores " + IntToString(HungerValue(FoodCatalog()[i].name)) + " hunger"
  {
    SmallNumbers();
  }

  /** Every catalog gift's effect text names the happiness the use table adds. */
  lemma GiftEffectTexts()
    ensures forall i :: 0 <= i < 4 ==>
      GiftCatalog()[i].effect == "Increases happiness +" + IntToString(HappinessValue(GiftCatalog()[i].name))
  {
    SmallNumbers();
  }

  lemma SmallNumbers()
    ensures IntToString(5) == "5" && IntToString(9) == "9" && IntToString(10) == "10"
    ensures IntToString(12) == "12" && IntToString(13) == "13"
    ensures IntToString(15) == "15" && IntToString(20) == "20"
  {
  }

  /** The loader gives each catalog item the catalog's own effect text. */
  lemma LoaderEffectsMatchCatalog()
    ensures forall i :: 0 <= i < 6 ==> EffectFor(FoodCatalog()[i].name) == FoodCatalog()[i].effect
    ensures forall i :: 0 <= i < 4 ==> EffectFor(GiftCatalog()[i].name) == GiftCatalog()[i].effect
  {
    FoodLoaderEffects();
    GiftLoaderEffects();
  }

  lemma FoodLoaderEffects()
    ensures forall i :: 0 <= i < 6 ==> EffectFor(FoodCatalog()[i].name) == FoodCatalog()[i].effect
  {
    assert ToLowerAscii("Fish"[0]) != ToLowerAscii("Bone"[0]);
    assert ToLowerAscii("Steak"[0]) != ToLowerAscii("Apple"[0]);
  }

  lemma GiftLoaderEffects()
    ensures forall i :: 0 <= i < 4 ==> EffectFor(GiftCatalog()[i].name) == GiftCatalog()[i].effect
  {
    assert ToLowerAscii("Ball"[1]) != ToLowerAscii("Bone"[1]);
    assert ToLowerAscii("Ball"[0]) != ToLowerAscii("Fish"[0]);
    assert ToLowerAscii("Frisbee"[0]) != ToLowerAscii("Chicken"[0]);
  }

  /** A name outside the catalog restores and adds nothing. */
  lemma UnknownNamesDoNothing(name: string)
    ensures (forall i :: 0 <= i < 6 ==> FoodCatalog()[i].name != name) ==> HungerValue(name) == 0
    ensures (forall i :: 0 <= i < 4 ==> GiftCatalog()[i].name != name) ==> HappinessValue(name) == 0
  {
    var f := FoodCatalog();
    var g := GiftCatalog();
    assert f[0].name == "Apple" && f[1].name == "Carrot" && f[2].name == "Bone";
    assert f[3].name == "Fish" && f[4].name == "Chicken" && f[5].name == "Steak";
    assert g[0].name == "Toy" && g[1].name == "Teddy Bear" && g[2].name == "Ball" && g[3].name == "Frisbee";
  }

  // ------------------------------------------------------------ consumption

  /** One use of the item at `i`: its quantity drops by one, and the item
      leaves the list once that quantity is 0 or below. */
  function Consumed(items: seq<Item>, i: nat): (r: seq<Item>)
    requires i < |items|
    ensures |items| - 1 <= |r| <= |items|
    ensures r[..i] == items[..i]
  {
    var q := Sub(items[i].quantity, 1);
    if q <= 0 then items[..i] + items[i + 1..]
    else items[i := items[i].(quantity := q)]
  }

  /** The number of units held: the sum of the quantities. */
  function Total(items: seq<Item>): int
  {
    if items == [] then 0 else Total(items[..|items| - 1]) + items[|items| - 1].quantity
  }

  lemma {:induction false} TotalAppend(a: seq<Item>, b: seq<Item>)
    ensures Total(a + b) == Total(a) + Total(b)
    decreases |b|
  {
    if b == [] {
      assert a + b == a;
    } else {
      assert (a + b)[..|a + b| - 1] == a + b[..|b| - 1];
      assert (a + b)[|a + b| - 1] == b[|b| - 1];
      TotalAppend(a, b[..|b| - 1]);
      assert Total(a + b) == Total(a + b[..|b| - 1]) + b[|b| - 1].quantity;
      assert Total(b) == Total(b[..|b| - 1]) + b[|b| - 1].quantity;
    }
  }

  /** The total of a list is the total before `i`, the item at `i`, and the total after it. */
  lemma TotalAround(items: seq<Item>, i: nat)
    requires i < |items|
    ensures Total(items) == Total(items[..i]) + items[i].quantity + Total(items[i + 1..])
  {
    assert items == items[..i] + [items[i]] + items[i + 1..];
    TotalAppend(items[..i] + [items[i]], items[i + 1..]);
    TotalAppend(items[..i], [items[i]]);
    assert [items[i]][..0] == [];
  }

  /** Using a held unit removes exactly one unit from the list's total. */
  lemma ConsumedOneUnit(items: seq<Item>, i: nat)
    requires i < |items| && 1 <= items[i].quantity
    ensures Total(Consumed(items, i)) == Total(items) - 1
  {
    TotalAround(items, i);
    var r := Consumed(items, i);
    if items[i].quantity == 1 {
      TotalAppend(items[..i], items[i + 1..]);
    } else {
      assert r[..i] == items[..i] && r[i + 1..] == items[i + 1..];
      TotalAround(r, i);
    }
  }

  /** Only the used item changes: the other items stay, in order. The used
      item leaves the list exactly when its quantity was at most 1 (0 and
      negative quantities included); otherwise its quantity drops by one,
      wrapping from the least `int` to the greatest. */
  lemma ConsumedKeepsOthers(items: seq<Item>, i: nat)
    requires i < |items|
    ensures -0x8000_0000 < items[i].quantity <= 1 ==> Consumed(items, i) == items[..i] + items[i + 1..]
    ensures items[i].quantity > 1 ==> Consumed(items, i) == items[i := items[i].(quantity := items[i].quantity - 1)]
    ensures items[i].quantity == -0x8000_0000 ==> Consumed(items, i) == items[i := items[i].(quantity := 0x7fff_ffff)]
  {
  }

  // ----------------------------------------------------------- reward draw

  /** The reward draw over a catalog in iteration order: items already held
      are passed over without a coin; each other item takes the next coin and
      is chosen on heads. A missing coin counts as tails. */
  function Draw(catalog: seq<Item>, held: seq<Item>, coins: seq<bool>): (r: Option<Item>)
    ensures r.Some? ==> r.value in catalog && !Held(held, r.value)
  {
    if catalog == [] then None
    else if Held(held, catalog[0]) then Draw(catalog[1..], held, coins)
    else if coins != [] && coins[0] then Some(catalog[0])
    else Draw(catalog[1..], held, if coins == [] then [] else coins[1..])
  }

  /** When every catalog item is already held, nothing is drawn, whatever the coins. */
  lemma {:induction false} DrawAllHeld(catalog: seq<Item>, held: seq<Item>, coins: seq<bool>)
    requires forall x :: x in catalog ==> Held(held, x)
    ensures Draw(catalog, held, coins) == None
  {
    if catalog != [] {
      assert catalog[0] in catalog;
      DrawAllHeld(catalog[1..], held, coins);
    }
  }

  /** With heads on the first coin, the first catalog item not held is drawn. */
  lemma {:induction false} DrawFirstFree(catalog: seq<Item>, held: seq<Item>, coins: seq<bool>, i: nat)
    requires i < |catalog| && !Held(held, catalog[i])
    requires forall j :: 0 <= j < i ==> Held(held, catalog[j])
    requires coins != [] && coins[0]
    ensures Draw(catalog, held, coins) == Some(catalog[i])
  {
    if i > 0 {
      assert Held(held, catalog[0]);
      assert forall j :: 0 <= j < i - 1 ==> catalog[1..][j] == catalog[j + 1];
      DrawFirstFree(catalog[1..], held, coins, i - 1);
    }
  }

  /** One pass of `addFoodRandom` / `addGiftRandom` over the catalog, with
      the inner scan for an item that `isSame`. */
  method Pick(catalog: seq<Item>, held: seq<Item>, coins: seq<bool>) returns (chosen: Option<Item>)
    ensures chosen == Draw(catalog, held, coins)
  {
    var flips := coins;
    for i := 0 to |catalog|
      invariant Draw(catalog, held, coins) == Draw(catalog[i..], held, flips)
    {
      var item := catalog[i];
      assert catalog[i..][0] == item && catalog[i..][1..] == catalog[i + 1..];
      var found := false;
      for k := 0 to |held|
        invariant found <==> exists m :: 0 <= m < k && IsSame(item, held[m])
      {
        if IsSame(item, held[k]) {
          found := true;
        }
      }
      if !found {
        var heads := flips != [] && flips[0];
        flips := if flips == [] then [] else flips[1..];
        if heads {
          return Some(item);
        }
      }
    }
    return None;
  }

  // ------------------------------------------------------------ line format

  /** One saved line: `name,type,effect` and a newline; the quantity is not saved. */
  function Line(it: Item): string
  {
    it.name + "," + it.itype + "," + it.effect + "\n"
  }

  /** The lines of a list of items, first to last. */
  function Lines(items: seq<Item>): string
  {
    if items == [] then "" else Line(items[0]) + Lines(items[1..])
  }

  lemma {:induction false} LinesSnoc(items: seq<Item>, it: Item)
    ensures Lines(items + [it]) == Lines(items) + Line(it)
  {
    if items == [] {
      assert [it][1..] == [];
    } else {
      assert (items + [it])[1..] == items[1..] + [it];
      LinesSnoc(items[1..], it);
    }
  }

  /** `inventoryToString`: the food lines, then the gift lines. */
  function InventoryText(food: seq<Item>, gifts: seq<Item>): (t: string)
    ensures t == "" <==> food == [] && gifts == []
  {
    Lines(food) + Lines(gifts)
  }

  /** The item one line describes: at least three comma-separated fields
      make a quantity-1 item; fewer is the out-of-bounds failure. */
  function LineItem(line: string): (r: Option<Item>)
    ensures r.Some? ==> r.value.quantity == 1
  {
    var fields := Split(line, ',');
    if |fields| < 3 then None else Some(Item(fields[0], fields[1], fields[2], 1))
  }

  /** The outcome of reading item lines: the lists built so far, and whether
      every line was read (`false` when a line threw). */
  datatype Parsed = Parsed(food: seq<Item>, gifts: seq<Item>, complete: bool)

  /** Reading lines in order into emptied lists; type `food` goes to the food
      list, anything else to the gifts; the first bad line stops the rest. */
  function AddLines(lines: seq<string>): (p: Parsed)
    ensures forall x :: x in p.food ==> x.itype == "food"
    ensures forall x :: x in p.gifts ==> x.itype != "food"
    ensures |p.food| + |p.gifts| <= |lines|
    ensures p.complete ==> |p.food| + |p.gifts| == |lines|
  {
    if lines == [] then Parsed([], [], true)
    else
      var p := AddLines(lines[..|lines| - 1]);
      if !p.complete then p
      else
        match LineItem(lines[|lines| - 1])
        case None => p.(complete := false)
        case Some(it) =>
          if it.itype == "food" then p.(food := p.food + [it]) else p.(gifts := p.gifts + [it])
  }

  /** `customAddItems` as a function of its argument: a read that does not
      throw gives one item per line, each in the list its type names. */
  function CustomItems(itemList: string): (p: Parsed)
    ensures forall x :: x in p.food ==> x.itype == "food"
    ensures forall x :: x in p.gifts ==> x.itype != "food"
    ensures p.complete ==> |p.food| + |p.gifts| == |Split(itemList, '\n')|
  {
    AddLines(Split(itemList, '\n'))
  }

  /** An item the line format can carry back: quantity 1, no comma or
      newline in any field, a non-empty effect (a trailing empty field is
      dropped by `split`), and a type that sends it back to its own list. */
  predicate Savable(it: Item, isFood: bool)
  {
    it.quantity == 1 && it.effect != [] &&
    ',' !in it.name && ',' !in it.itype && ',' !in it.effect &&
    '\n' !in it.name && '\n' !in it.itype && '\n' !in it.effect &&
    (it.itype == "food") == isFood
  }

  /** A line without its newline. */
  function Row(it: Item): string
  {
    it.name + "," + it.itype + "," + it.effect
  }

  lemma RowItem(it: Item, isFood: bool)
    requires Savable(it, isFood)
    ensures LineItem(Row(it)) == Some(it)
    ensures '\n' !in Row(it) && Row(it) != []
  {
    ThreeFields(it.name, it.itype, it.effect);
    assert Row(it)[|it.name|] == ',';
  }

  /** Three comma-free texts joined by commas split back into those three,
      provided the last is not empty. */
  lemma ThreeFields(a: string, b: string, c: string)
    requires ',' !in a && ',' !in b && ',' !in c && c != []
    ensures Split(a + "," + b + "," + c, ',') == [a, b, c]
  {
    var r := a + "," + b + "," + c;
    var tail := b + [','] + c;
    assert r == a + [','] + tail;
    assert r[|a|] == ',';
    FieldsAppend(a, tail, ',');
    FieldsAppend(b, c, ',');
    FieldsWithout(a, ',');
    FieldsWithout(b, ',');
    FieldsWithout(c, ',');
    assert Fields(r, ',') == [a, b, c];
  }

  /** The rows of a list of items. */
  function Rows(items: seq<Item>): (rs: seq<string>)
    ensures |rs| == |items| && forall i :: 0 <= i < |items| ==> rs[i] == Row(items[i])
  {
    seq(|items|, i requires 0 <= i < |items| => Row(items[i]))
  }

  /** Split at newlines, the lines of a list give its rows and one empty
      field after the last newline. */
  lemma {:induction false} FieldsOfLines(items: seq<Item>)
    requires forall i :: 0 <= i < |items| ==> '\n' !in Row(items[i])
    ensures Fields(Lines(items), '\n') == Rows(items) + [""]
  {
    if items != [] {
      var it := items[0];
      assert Line(it) == Row(it) + "\n";
      assert Lines(items) == Row(it) + ['\n'] + Lines(items[1..]);
      FieldsAppend(Row(it), Lines(items[1..]), '\n');
      FieldsWithout(Row(it), '\n');
      FieldsOfLines(items[1..]);
      assert Rows(items) == [Row(it)] + Rows(items[1..]);
    }
  }

  lemma LinesAppend(a: seq<Item>, b: seq<Item>)
    ensures Lines(a + b) == Lines(a) + Lines(b)
    decreases |a|
  {
    if a == [] {
      assert a + b == b;
    } else {
      assert (a + b)[0] == a[0] && (a + b)[1..] == a[1..] + b;
      LinesAppend(a[1..], b);
      assert Lines(a + b) == Line(a[0]) + Lines(a[1..] + b);
      assert Lines(a) == Line(a[0]) + Lines(a[1..]);
    }
  }

  /** One more good line after lines that were all read. */
  lemma AddLinesSnoc(lines: seq<string>, line: string, it: Item)
    requires AddLines(lines).complete && LineItem(line) == Some(it)
    ensures var p := AddLines(lines);
      AddLines(lines + [line]) ==
        if it.itype == "food" then p.(food := p.food + [it]) else p.(gifts := p.gifts + [it])
  {
    assert (lines + [line])[..|lines|] == lines;
  }

  /** The first line that throws stops the reading: the lines after it change nothing. */
  lemma {:induction false} AddLinesStops(lines: seq<string>, n: nat)
    requires n <= |lines| && !AddLines(lines[..n]).complete
    ensures AddLines(lines) == AddLines(lines[..n])
    decreases |lines| - n
  {
    if n < |lines| {
      var shorter := lines[..|lines| - 1];
      assert shorter[..n] == lines[..n];
      AddLinesStops(shorter, n);
    } else {
      assert lines[..n] == lines;
    }
  }

  lemma RowsSnoc(items: seq<Item>, it: Item)
    ensures Rows(items + [it]) == Rows(items) + [Row(it)]
  {
  }

  /** Reading back the rows of savable items gives them back, split by type
      exactly as the loader splits them. */
  lemma {:induction false} AddLinesRows(items: seq<Item>)
    requires forall i :: 0 <= i < |items| ==> Savable(items[i], items[i].itype == "food")
    ensures AddLines(Rows(items)) == Parsed(Partition(items).0, Partition(items).1, true)
  {
    if items != [] {
      var n := |items| - 1;
      var init, it := items[..n], items[n];
      assert items == init + [it];
      RowsSnoc(init, it);
      AddLinesRows(init);
      RowItem(it, it.itype == "food");
      AddLinesSnoc(Rows(init), Row(it), it);
      PartitionSnoc(init, it);
    }
  }

  /** Food items followed by non-food items are split back into the two. */
  lemma {:induction false} PartitionOfSorted(food: seq<Item>, gifts: seq<Item>)
    requires forall i :: 0 <= i < |food| ==> food[i].itype == "food"
    requires forall i :: 0 <= i < |gifts| ==> gifts[i].itype != "food"
    ensures Partition(food + gifts) == (food, gifts)
    decreases |food| + |gifts|
  {
    if gifts != [] {
      var n := |gifts| - 1;
      assert food + gifts == (food + gifts[..n]) + [gifts[n]];
      PartitionOfSorted(food, gifts[..n]);
      PartitionSnoc(food + gifts[..n], gifts[n]);
      assert gifts[..n] + [gifts[n]] == gifts;
    } else if food != [] {
      var n := |food| - 1;
      assert food + gifts == food[..n] + [food[n]];
      PartitionOfSorted(food[..n], []);
      assert food[..n] + [] == food[..n];
      PartitionSnoc(food[..n], food[n]);
      assert food[..n] + [food[n]] == food;
    }
  }

  /** Reading back the rows of the food items followed by the gift items. */
  lemma AddLinesAll(food: seq<Item>, gifts: seq<Item>)
    requires forall i :: 0 <= i < |food| ==> Savable(food[i], true)
    requires forall i :: 0 <= i < |gifts| ==> Savable(gifts[i], false)
    ensures AddLines(Rows(food + gifts)) == Parsed(food, gifts, true)
  {
    var all := food + gifts;
    forall i | 0 <= i < |all|
      ensures Savable(all[i], all[i].itype == "food")
    {
      if i >= |food| {
        assert all[i] == gifts[i - |food|];
      }
    }
    AddLinesRows(all);
    PartitionOfSorted(food, gifts);
  }

  /** `customAddItems(inventoryToString())` restores both lists, provided
      there is at least one item and every item is `Savable`. */
  lemma InventoryRoundTrip(food: seq<Item>, gifts: seq<Item>)
    requires forall i :: 0 <= i < |food| ==> Savable(food[i], true)
    requires forall i :: 0 <= i < |gifts| ==> Savable(gifts[i], false)
    requires food + gifts != []
    ensures CustomItems(InventoryText(food, gifts)) == Parsed(food, gifts, true)
  {
    var all := food + gifts;
    LinesAppend(food, gifts);
    forall i | 0 <= i < |all|
      ensures '\n' !in Row(all[i]) && Row(all[i]) != []
    {
      if i < |food| {
        RowItem(food[i], true);
      } else {
        assert all[i] == gifts[i - |food|];
        RowItem(gifts[i - |food|], false);
      }
    }
    FieldsOfLines(all);
    var t := Lines(all);
    assert t == Line(all[0]) + Lines(all[1..]);
    assert '\n' in t by {
      assert t[|Line(all[0])| - 1] == '\n';
    }
    var rs := Rows(all);
    assert DropTrailingEmpty(rs + [""]) == DropTrailingEmpty(rs) by {
      assert (rs + [""])[..|rs|] == rs;
    }
    assert rs[|rs| - 1] != [];
    AddLinesAll(food, gifts);
  }

  /** A saved empty inventory is not read back: its text is empty, `split`
      turns that into one empty line, and that line has no second field. */
  lemma EmptyInventoryNotRestored()
    ensures InventoryText([], []) == ""
    ensures CustomItems(InventoryText([], [])) == Parsed([], [], false)
  {
    assert Split("", '\n') == [""];
    assert Split("", ',') == [""];
    assert [""][..0] == [];
  }

  /** The reading the constructor's documentation evidently intends: an
      empty text keeps the default inventory the screen `start`ed with, any
      other text is read line by line as before. */
  function CustomItemsFixed(start: (seq<Item>, seq<Item>), itemList: string): Parsed
  {
    if itemList == "" then Parsed(start.0, start.1, true) else CustomItems(itemList)
  }

  /** With that reading no saved inventory makes loading fail: every
      non-empty `Savable` inventory comes back unchanged, and a saved empty
      one comes back as the default inventory. */
  lemma FixedRoundTrip(start: (seq<Item>, seq<Item>), food: seq<Item>, gifts: seq<Item>)
    requires forall i :: 0 <= i < |food| ==> Savable(food[i], true)
    requires forall i :: 0 <= i < |gifts| ==> Savable(gifts[i], false)
    ensures CustomItemsFixed(start, InventoryText(food, gifts)).complete
    ensures food + gifts != [] ==> CustomItemsFixed(start, InventoryText(food, gifts)) == Parsed(food, gifts, true)
    ensures food + gifts == [] ==> CustomItemsFixed(start, InventoryText(food, gifts)) == Parsed(start.0, start.1, true)
  {
    if food + gifts == [] {
      assert food == [] && gifts == [];
    } else {
      InventoryRoundTrip(food, gifts);
      assert InventoryText(food, gifts) != "" by {
        LinesAppend(food, gifts);
        assert Lines(food + gifts) == Line((food + gifts)[0]) + Lines((food + gifts)[1..]);
      }
    }
  }

  // ----------------------------------------------------- configuration load

  const INVENTORY_KEY: string := "\"inventory\":"
  const ITEM_ID_KEY: string := "\"itemId\":"

  /** The text between the `[` after `"inventory":` and the next `]`, or
      `None` when the key, the `[` or the `]` is missing. */
  function InventoryContent(json: string): Option<string>
  {
    var invIndex := IndexOf(json, INVENTORY_KEY, 0);
    if invIndex == -1 then None
    else
      var startArray := IndexOfChar(json, '[', invIndex);
      if startArray == -1 then None
      else
        var endArray := IndexOfChar(json, ']', startArray);
        if endArray == -1 then None
        else
          Some(json[startArray + 1..endArray])
  }

  /** `extractValue`: after the first `"key":` at or after `pos`, the text
      between the next two quotes when any quote follows (however far), and
      otherwise the trimmed text up to the nearer `,` or `}`. */
  function ExtractValue(json: string, key: string, pos: nat): (r: Option<string>)
  {
    var keyIndex := IndexOf(json, KeyPattern(key), pos);
    if keyIndex == -1 then None else ValueAfter(json, keyIndex + |key| + 3)
  }

  function ValueAfter(json: string, colon: nat): (r: Option<string>)
  {
    if IndexOfChar(json, '"', colon) != -1 then Quoted(json, colon)
    else
      var endPos := ValueEnd(json, colon);
      if endPos == -1 then None else Some(Trim(json[colon..endPos]))
  }

  /** A value read after the colon never holds a quote. */
  lemma ValueAfterQuoteFree(json: string, colon: nat)
    ensures ValueAfter(json, colon).Some? ==> '"' !in ValueAfter(json, colon).value
  {
    if IndexOfChar(json, '"', colon) == -1 {
      var endPos := ValueEnd(json, colon);
      if endPos != -1 {
        BareQuoteFree(json, colon, endPos);
      }
    }
  }

  /** With no quote from `colon` on, the trimmed text before `endPos` holds none. */
  lemma BareQuoteFree(json: string, colon: nat, endPos: nat)
    requires colon <= endPos <= |json| && IndexOfChar(json, '"', colon) == -1
    ensures '"' !in Trim(json[colon..endPos])
  {
    IndexOfCharSpec(json, '"', colon);
    var t := json[colon..endPos];
    assert '"' !in t by {
      forall j | 0 <= j < |t|
        ensures t[j] != '"'
      {
        assert t[j] == json[colon + j];
      }
    }
    TrimWithin(t);
  }

  /** `extractValue` gives `null` when the key does not occur from `pos` on. */
  lemma ExtractKeyAbsent(json: string, key: string, pos: nat)
    requires AbsentFrom(json, KeyPattern(key), pos)
    ensures ExtractValue(json, key, pos).None?
  {
    IndexOfAbsent(json, KeyPattern(key), pos);
  }

  /** The value after the colon is `null` when exactly one quote follows
      it: the value opens but is never closed. With `ExtractAt` this is
      `extractValue`'s third `null`. */
  lemma ValueAfterUnclosed(json: string, colon: nat, q: nat)
    requires colon <= q < |json| && json[q] == '"'
    requires forall i :: colon <= i < q ==> json[i] != '"'
    requires CharAbsentFrom(json, '"', q + 1)
    ensures ValueAfter(json, colon) == None
  {
    IndexOfCharFirst(json, '"', colon, q);
  }

  /** `extractValue` gives `null` when no quote, no `,` and no `}` follow the key. */
  lemma ExtractNoEnd(json: string, key: string, pos: nat, k: int)
    requires FirstAt(json, KeyPattern(key), pos, k)
    requires CharAbsentFrom(json, '"', k + |key| + 3)
    requires CharAbsentFrom(json, ',', k + |key| + 3) && CharAbsentFrom(json, '}', k + |key| + 3)
    ensures ExtractValue(json, key, pos).None?
  {
    ExtractAt(json, key, pos, k);
  }

  /** A quoted value after the key is returned without its quotes; when the
      value is unquoted but a quote follows later, the quoted token that
      follows is returned instead. */
  lemma ExtractQuoted(json: string, key: string, pos: nat, k: int, pre: string, v: string, rest: string)
    requires FirstAt(json, KeyPattern(key), pos, k)
    requires json[k + |key| + 3..] == pre + "\"" + v + "\"" + rest
    requires '"' !in pre && '"' !in v
    ensures ExtractValue(json, key, pos) == Some(v)
  {
    ExtractAt(json, key, pos, k);
    ValueAfterQuoted(json, k + |key| + 3, pre, v, rest);
  }

  lemma ValueAfterQuoted(json: string, colon: nat, pre: string, v: string, rest: string)
    requires colon <= |json| && json[colon..] == pre + "\"" + v + "\"" + rest
    requires '"' !in pre && '"' !in v
    ensures ValueAfter(json, colon) == Some(v)
  {
    QuotedToken(json, colon, pre, v, rest);
  }

  /** With no quote after the key, the value is the trimmed text up to the
      nearer `,` or `}`. */
  lemma ExtractBare(json: string, key: string, pos: nat, k: int, e: int)
    requires FirstAt(json, KeyPattern(key), pos, k)
    requires CharAbsentFrom(json, '"', k + |key| + 3)
    requires k + |key| + 3 <= e < |json| && (json[e] == ',' || json[e] == '}')
    requires forall i :: k + |key| + 3 <= i < e ==> json[i] != ',' && json[i] != '}'
    ensures ExtractValue(json, key, pos) == Some(Trim(json[k + |key| + 3..e]))
  {
    var colon := k + |key| + 3;
    ExtractAt(json, key, pos, k);
    ValueAfterBare(json, colon, e);
    assert ValueAfter(json, colon) == Some(Trim(json[colon..e]));
  }

  /** The value is read from just after the first `"key":` at or after `pos`. */
  lemma ExtractAt(json: string, key: string, pos: nat, k: int)
    requires FirstAt(json, KeyPattern(key), pos, k)
    ensures ExtractValue(json, key, pos) == ValueAfter(json, k + |key| + 3)
  {
    IndexOfFirst(json, KeyPattern(key), pos, k);
  }

  lemma ValueAfterBare(json: string, colon: nat, e: nat)
    requires CharAbsentFrom(json, '"', colon)
    requires colon <= e < |json| && (json[e] == ',' || json[e] == '}')
    requires forall i :: colon <= i < e ==> json[i] != ',' && json[i] != '}'
    ensures ValueAfter(json, colon) == Some(Trim(json[colon..e]))
  {
    IndexOfCharSpec(json, '"', colon);
    ValueEndAt(json, colon, e);
  }

  /** The item the loader builds for the `"itemId":` at `keyPos`: each field
      is searched from `keyPos` on, a missing or non-numeric quantity is 1,
      a missing name is "Unknown", and the type is gift exactly when the id
      contains "TOY". */
  function ItemAt(content: string, keyPos: nat): (it: Item)
    ensures it.itype == "gift" || it.itype == "food"
  {
    var itemId := ExtractValue(content, "itemId", keyPos);
    var itemName := ExtractValue(content, "itemName", keyPos);
    var qtyStr := ExtractValue(content, "quantity", keyPos);
    var quantity: Int32 :=
      if qtyStr.None? then 1
      else match ParseInt(qtyStr.value) case Some(q) => q case None => 1;
    var effect := if itemName.None? then "Some effect" else EffectFor(itemName.value);
    var itype := if itemId.Some? && Contains(itemId.value, "TOY") then "gift" else "food";
    Item(if itemName.Some? then itemName.value else "Unknown", itype, effect, quantity)
  }

  /** The positions of every `"itemId":` the loader's loop finds. */
  function ItemKeys(content: string): seq<nat>
  {
    Matches(content, ITEM_ID_KEY, 0)
  }

  /** The item built at each of `keys`, in order. */
  function ItemsAt(content: string, keys: seq<nat>): (items: seq<Item>)
    ensures |items| == |keys|
    ensures forall i :: 0 <= i < |keys| ==> items[i] == ItemAt(content, keys[i])
  {
    seq(|keys|, i requires 0 <= i < |keys| => ItemAt(content, keys[i]))
  }

  /** The items sent to the food list and to the gift list, each in the
      order they come: food when the type is "food", gift otherwise. */
  function Partition(items: seq<Item>): (seq<Item>, seq<Item>)
  {
    if items == [] then ([], [])
    else
      PlaceLast(Partition(items[..|items| - 1]), items[|items| - 1])
  }

  /** An item put at the end of the food list or the gift list, by its type. */
  function PlaceLast(p: (seq<Item>, seq<Item>), it: Item): (seq<Item>, seq<Item>)
  {
    if it.itype == "food" then (p.0 + [it], p.1) else (p.0, p.1 + [it])
  }

  /** What the loader puts in the two lists for the text of the array. */
  function LoadItems(content: string): (seq<Item>, seq<Item>)
  {
    Partition(ItemsAt(content, ItemKeys(content)))
  }

  lemma PartitionSnoc(items: seq<Item>, it: Item)
    ensures Partition(items + [it]) == PlaceLast(Partition(items), it)
  {
    assert (items + [it])[..|items|] == items;
  }

  /** The two lists are the items split by type: nothing is lost or
      duplicated, the food list holds only food, the gift list only the rest. */
  lemma {:induction false} PartitionSplits(items: seq<Item>)
    ensures multiset(Partition(items).0) + multiset(Partition(items).1) == multiset(items)
    ensures forall x :: x in Partition(items).0 ==> x.itype == "food"
    ensures forall x :: x in Partition(items).1 ==> x.itype != "food" && x in items
    decreases |items|
  {
    if items != [] {
      var init := items[..|items| - 1];
      var it := items[|items| - 1];
      assert items == init + [it];
      PartitionSplits(init);
      PartitionSnoc(init, it);
    }
  }

  /** One item per `"itemId":`; every food item is in the food list and
      every gift in the gift list. */
  lemma LoadedItems(content: string)
    ensures |LoadItems(content).0| + |LoadItems(content).1| == Count(content, ITEM_ID_KEY, 0)
    ensures forall x :: x in LoadItems(content).0 ==> x.itype == "food"
    ensures forall x :: x in LoadItems(content).1 ==> x.itype == "gift"
  {
    var items := ItemsAt(content, ItemKeys(content));
    MatchesAreNth(content, ITEM_ID_KEY, 0);
    PartitionSplits(items);
    var p := Partition(items);
    assert |multiset(p.0) + multiset(p.1)| == |items|;
    forall x | x in p.1
      ensures x.itype == "gift"
    {
      var i :| 0 <= i < |items| && items[i] == x;
    }
  }

  lemma LoadStep(content: string, done: seq<nat>, k: nat)
    ensures Partition(ItemsAt(content, done + [k])) == PlaceLast(Partition(ItemsAt(content, done)), ItemAt(content, k))
  {
    assert ItemsAt(content, done + [k]) == ItemsAt(content, done) + [ItemAt(content, k)];
    PartitionSnoc(ItemsAt(content, done), ItemAt(content, k));
  }

  lemma KeysAdvance(keys: seq<nat>, done: seq<nat>, k: nat, rest: seq<nat>)
    requires keys == done + ([k] + rest)
    ensures keys == (done + [k]) + rest
  {
  }

  /** The loader's test for a gift: an id was found and "TOY" occurs in it. */
  predicate ToyId(itemId: Option<string>)
  {
    itemId.Some? && exists i :: 0 <= i <= |itemId.value| && OccursAt(itemId.value, "TOY", i)
  }

  /** An item lands in the list its type names. */
  lemma {:induction false} PartitionPlaces(items: seq<Item>, x: Item)
    requires x in items
    ensures x.itype == "food" ==> x in Partition(items).0
    ensures x.itype != "food" ==> x in Partition(items).1
    decreases |items|
  {
    var init := items[..|items| - 1];
    var it := items[|items| - 1];
    assert items == init + [it];
    if x != it {
      PartitionPlaces(init, x);
    }
  }

  /** For every `"itemId":` the loader finds, the item built there goes to
      the gift list exactly when the id was found and contains "TOY", and
      to the food list otherwise. */
  lemma LoadedItemType(content: string, k: nat)
    requires k in ItemKeys(content)
    ensures ItemAt(content, k) in LoadItems(content).1 <==> ToyId(ExtractValue(content, "itemId", k))
    ensures ItemAt(content, k) in LoadItems(content).0 <==> !ToyId(ExtractValue(content, "itemId", k))
  {
    var keys := ItemKeys(content);
    var items := ItemsAt(content, keys);
    var j :| 0 <= j < |keys| && keys[j] == k;
    assert items[j] == ItemAt(content, k);
    PartitionPlaces(items, items[j]);
    PartitionSplits(items);
    var itemId := ExtractValue(content, "itemId", k);
    if itemId.Some? {
      ContainsOccurs(itemId.value, "TOY");
    }
  }

  /** The quantity of a loaded item: the integer its `"quantity":` field
      holds, and 1 when that field is missing or is not an integer. */
  lemma LoadedQuantity(content: string, keyPos: nat, n: Int32)
    ensures ExtractValue(content, "quantity", keyPos).None? ==> ItemAt(content, keyPos).quantity == 1
    ensures (ExtractValue(content, "quantity", keyPos).Some? &&
             ParseInt(ExtractValue(content, "quantity", keyPos).value).None?) ==> ItemAt(content, keyPos).quantity == 1
    ensures ExtractValue(content, "quantity", keyPos) == Some(IntToString(n)) ==> ItemAt(content, keyPos).quantity == n
  {
    ParseIntToString(n);
  }

  /** The lists a new inventory screen holds, given the configuration text
      (`None` when it cannot be read): the configured inventory when the
      text has one, one of each catalog item otherwise. */
  function StartLists(config: Option<string>): (seq<Item>, seq<Item>)
  {
    if config.Some? && InventoryContent(config.value).Some? then LoadItems(InventoryContent(config.value).value)
    else (FoodCatalog(), GiftCatalog())
  }

  // ------------------------------------------------------------------ store

  /** The inventory screen's lists. `foodTotal` and `giftTotal` are the
      catalog in the iteration order of its hash set, which the draw follows. */
  class Store {
    var food: seq<Item>
    var gifts: seq<Item>
    const foodTotal: seq<Item>
    const giftTotal: seq<Item>

    /** A new screen: the configured inventory when it can be read, the
        default one otherwise. */
    constructor (config: Option<string>, foodOrder: seq<Item>, giftOrder: seq<Item>)
      requires Shuffled(foodOrder, giftOrder)
      ensures foodTotal == foodOrder && giftTotal == giftOrder
      ensures (food, gifts) == StartLists(config)
    {
      food := [];
      gifts := [];
      foodTotal := foodOrder;
      giftTotal := giftOrder;
      new;
      var loaded := LoadInventoryFromJson(config);
      if !loaded {
        PopulateInventory();
      }
    }

    /** `populateInventory`: one of each catalog item. */
    method PopulateInventory()
      modifies this
      ensures food == FoodCatalog() && gifts == GiftCatalog()
    {
      food := FoodCatalog();
      gifts := GiftCatalog();
    }

    /** `loadInventoryFromJson` on the text of the configuration file
        (`None` when it cannot be read). */
    method LoadInventoryFromJson(json: Option<string>) returns (loaded: bool)
      modifies this
      ensures loaded <==> json.Some? && InventoryContent(json.value).Some?
      ensures loaded ==> (food, gifts) == LoadItems(InventoryContent(json.value).value)
      ensures !loaded ==> food == old(food) && gifts == old(gifts)
    {
      if json.None? {
        return false;
      }
      var content := InventoryContent(json.value);
      if content.None? {
        return false;
      }
      LoadItemsFrom(content.value);
      return true;
    }

    /** The loop of `loadInventoryFromJson` over the array's text: empties
        both lists, then adds one item per `"itemId":`. */
    method LoadItemsFrom(inventoryContent: string)
      modifies this
      ensures (food, gifts) == LoadItems(inventoryContent)
    {
      food := [];
      gifts := [];
      var fromIndex := 0;
      ghost var done: seq<nat> := [];
      ghost var keys := ItemKeys(inventoryContent);
      assert keys == done + keys;
      while true
        invariant fromIndex <= |inventoryContent|
        invariant keys == done + Matches(inventoryContent, ITEM_ID_KEY, fromIndex)
        invariant (food, gifts) == Partition(ItemsAt(inventoryContent, done))
        decreases |inventoryContent| - fromIndex
      {
        var keyPos := IndexOf(inventoryContent, ITEM_ID_KEY, fromIndex);
        if keyPos == -1 {
          assert done + [] == done;
          break;
        }
        var newItem := ItemAt(inventoryContent, keyPos);
        LoadStep(inventoryContent, done, keyPos);
        Add(newItem);
        MatchesStep(inventoryContent, ITEM_ID_KEY, fromIndex, keyPos);
        KeysAdvance(keys, done, keyPos, Matches(inventoryContent, ITEM_ID_KEY, keyPos + |ITEM_ID_KEY|));
        done := done + [keyPos];
        fromIndex := keyPos + |ITEM_ID_KEY|;
      }
    }

    /** Adds an item to the list its type names. */
    method Add(it: Item)
      modifies this
      ensures (food, gifts) == PlaceLast((old(food), old(gifts)), it)
    {
      if it.itype == "food" {
        food := food + [it];
      } else {
        gifts := gifts + [it];
      }
    }

    /** Using the food item at `i`; returns the hunger it restores. */
    method UseFood(i: nat) returns (hungerGain: int)
      requires i < |food|
      modifies this
      ensures food == Consumed(old(food), i) && gifts == old(gifts)
      ensures hungerGain == HungerValue(old(food)[i].name)
    {
      hungerGain := HungerValue(food[i].name);
      food := Consumed(food, i);
    }

    /** Giving the gift item at `i`; returns the happiness it adds. */
    method UseGift(i: nat) returns (happinessGain: int)
      requires i < |gifts|
      modifies this
      ensures gifts == Consumed(old(gifts), i) && food == old(food)
      ensures happinessGain == HappinessValue(old(gifts)[i].name)
    {
      happinessGain := HappinessValue(gifts[i].name);
      gifts := Consumed(gifts, i);
    }

    /** `inventoryToString`. */
    method InventoryToString() returns (text: string)
      ensures text == InventoryText(food, gifts)
    {
      text := "";
      for i := 0 to |food|
        invariant text == Lines(food[..i])
      {
        LinesSnoc(food[..i], food[i]);
        assert food[..i + 1] == food[..i] + [food[i]];
        text := text + Line(food[i]);
      }
      assert food[..|food|] == food;
      var prefix := text;
      for i := 0 to |gifts|
        invariant text == prefix + Lines(gifts[..i])
      {
        LinesSnoc(gifts[..i], gifts[i]);
        assert gifts[..i + 1] == gifts[..i] + [gifts[i]];
        text := text + Line(gifts[i]);
      }
      assert gifts[..|gifts|] == gifts;
    }

    /** `customAddItems`: empties both lists and reads one item per line.
        `ok` is false when a line threw; the lists then hold what was read
        before that line. */
    method CustomAddItems(itemList: string) returns (ok: bool)
      modifies this
      ensures Parsed(food, gifts, ok) == CustomItems(itemList)
    {
      food := [];
      gifts := [];
      var items := Split(itemList, '\n');
      for i := 0 to |items|
        invariant AddLines(items[..i]) == Parsed(food, gifts, true)
      {
        assert items[..i + 1][..i] == items[..i];
        var item := LineItem(items[i]);
        if item.None? {
          AddLinesStops(items, i + 1);
          return false;
        }
        if item.value.itype == "food" {
          food := food + [item.value];
        } else {
          gifts := gifts + [item.value];
        }
      }
      assert items[..|items|] == items;
      return true;
    }

    /** `addFoodRandom`: adds at most one catalog food not already held and
        returns its name, or "" with the lists unchanged. */
    method AddFoodRandom(coins: seq<bool>) returns (name: string)
      modifies this
      ensures gifts == old(gifts)
      ensures match Draw(foodTotal, old(food), coins)
        case None => name == "" && food == old(food)
        case Some(it) => name == it.name && food == old(food) + [it]
    {
      var chosen := Pick(foodTotal, food, coins);
      if chosen.None? {
        return "";
      }
      food := food + [chosen.value];
      return chosen.value.name;
    }

    /** `addGiftRandom`: the same draw over the gift catalog. */
    method AddGiftRandom(coins: seq<bool>) returns (name: string)
      modifies this
      ensures food == old(food)
      ensures match Draw(giftTotal, old(gifts), coins)
        case None => name == "" && gifts == old(gifts)
        case Some(it) => name == it.name && gifts == old(gifts) + [it]
    {
      var chosen := Pick(giftTotal, gifts, coins);
      if chosen.None? {
        return "";
      }
      gifts := gifts + [chosen.value];
      return chosen.value.name;
    }
  }

  /** A reward, when there is one, is a catalog item with a non-empty name,
      so the game shows a reward exactly when the returned name is not "". */
  lemma RewardNamed(order: seq<Item>, catalog: seq<Item>, held: seq<Item>, coins: seq<bool>)
    requires catalog == FoodCatalog() || catalog == GiftCatalog()
    requires multiset(order) == multiset(catalog)
    ensures Draw(order, held, coins).Some? ==>
      Draw(order, held, coins).value in catalog && Draw(order, held, coins).value.name != ""
  {
    var r := Draw(order, held, coins);
    if r.Some? {
      assert r.value in multiset(order);
      assert r.value in catalog;
      CatalogNamed(catalog);
    }
  }

  lemma CatalogNamed(catalog: seq<Item>)
    requires catalog == FoodCatalog() || catalog == GiftCatalog()
    ensures forall x :: x in catalog ==> x.name != ""
  {
  }
}
