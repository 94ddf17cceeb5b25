/**
 * The recipe tab (`RecipesTab`): the tab's edit buffers over recipe rows,
 * plus one editable line per ingredient and per product of the selected
 * recipe. A line holds what its widgets show: the dropdown's choice and
 * options, the amount text and the line's row number.
 *
 * `RecipesTab.__init__` never assigns `selected_index`, so until the first
 * selection reading it raises `AttributeError`; `selectedIndex == None`
 * stands for that state here.
 */
module RecipesTabs {
  import opened Wrappers
  import opened Records
  import Text
  import Tabs
  import Seqs

  /** Which of a recipe's two line lists an operation acts on. */
  datatype Side = IngredientSide | ProductSide

  /** One ingredient or product line as its widgets hold it. */
  datatype Row = Row(choice: Option<string>, options: seq<string>, amountText: string, number: int)

  /** A recipe's lines on one side: `entry['ingredients']` or `entry['products']`. */
  function Lines(r: Recipe, side: Side): seq<Item> {
    match side
    case IngredientSide => r.ingredients
    case ProductSide => r.products
  }

  /** The recipe with its lines on one side replaced. */
  function WithLines(r: Recipe, side: Side, items: seq<Item>): (r': Recipe)
    ensures Lines(r', side) == items
    ensures forall other :: other != side ==> Lines(r', other) == Lines(r, other)
    ensures r'.id == r.id && r'.name == r.name
  {
    match side
    case IngredientSide => r.(ingredients := items)
    case ProductSide => r.(products := items)
  }

  /** `get_id_from_name`: the id of the first ingredient with that name, or None. */
  function GetIdFromName(data: seq<Entry>, name: string): (r: Option<int>)
    ensures r.Some? <==> exists i :: 0 <= i < |data| && data[i].name == name
    ensures r.Some? ==> exists i :: 0 <= i < |data| && data[i].name == name && data[i].id == r.value &&
                                    forall j :: 0 <= j < i ==> data[j].name != name
  {
    var names := NamesOf(data);
    Seqs.FirstIndexFindsMember(names, name);
    assert name in names <==> exists i :: 0 <= i < |data| && data[i].name == name by {
      if name in names {
        var i :| 0 <= i < |names| && names[i] == name;
        assert data[i].name == name;
      }
    }
    match Seqs.FirstIndex(names, name, 0, |data|)
    case Some(i) => Some(data[i].id)
    case None => None
  }

  /** The id a line's dropdown choice resolves to. */
  function RowId(data: seq<Entry>, row: Row): (r: Option<int>)
    ensures r.Some? <==> row.choice.Some? && exists i :: 0 <= i < |data| && data[i].name == row.choice.value
  {
    match row.choice
    case None => None
    case Some(name) => GetIdFromName(data, name)
  }

  /** An amount field: `int(text) if text.isdigit() else -1`. */
  function ParseAmount(text: string): (amount: int)
    ensures amount >= -1
    ensures amount == -1 <==> !Text.IsDigits(text)
  {
    if Text.IsDigits(text) then Text.DigitsValue(text) else -1
  }

  /**
   * An amount shown with `str` is read back unchanged when it is not
   * negative; a negative amount reads back as -1.
   */
  lemma ParseAmountOfString(amount: int)
    ensures ParseAmount(Text.IntToString(amount)) == if amount >= 0 then amount else -1
  {
    Text.ParseIdOfString(amount);
  }

  /** The names of an ingredient list with every copy of `name` filtered out. */
  function Without(names: seq<string>, name: string): (r: seq<string>)
    ensures |r| <= |names|
    ensures forall x :: x in r <==> x in names && x != name
  {
    if names == [] then []
    else
      assert names == [names[0]] + names[1..];
      (if names[0] == name then [] else [names[0]]) + Without(names[1..], name)
  }

  /**
   * The dropdown of a new line for the item id `id`: when some ingredient
   * has that id, the first one's name is chosen and the options are all
   * other names; otherwise nothing is chosen and every name is an option.
   */
  function RowChoices(data: seq<Entry>, id: Option<int>): (r: (Option<string>, seq<string>))
    ensures r.0.Some? <==> id.Some? && exists i :: 0 <= i < |data| && data[i].id == id.value
    ensures r.0.Some? ==>
      exists i :: 0 <= i < |data| && data[i].id == id.value && data[i].name == r.0.value &&
                  forall j :: 0 <= j < i ==> data[j].id != id.value
    ensures r.0.Some? ==> forall x :: x in r.1 <==> x in NamesOf(data) && x != r.0.value
    ensures r.0.None? ==> r.1 == NamesOf(data)
  {
    if id.None? then (None, NamesOf(data))
    else
      var matches := NamesWithId(data, id.value);
      NamesWithIdNonEmpty(data, id.value);
      var first := Seqs.FirstIndex(IdsOf(data), id.value, 0, |data|);
      assert matches != [] ==> first.Some? by {
        if matches != [] {
          var i :| 0 <= i < |data| && data[i].id == id.value;
          assert IdsOf(data)[i] == id.value;
        }
      }
      if matches != [] then
        NamesWithIdHead(data, id.value, first.value);
        (Some(matches[0]), Without(NamesOf(data), matches[0]))
      else (None, NamesOf(data))
  }

  /** The line `create_ingredient_entry(id, amount, row)` and `create_product_entry` build. */
  function MakeRow(data: seq<Entry>, id: Option<int>, amount: int, number: int): (row: Row)
    ensures row.number == number
    ensures row.choice.Some? <==> id.Some? && exists i :: 0 <= i < |data| && data[i].id == id.value
    ensures ParseAmount(row.amountText) == if amount >= 0 then amount else -1
  {
    ParseAmountOfString(amount);
    var choices := RowChoices(data, id);
    Row(choices.0, choices.1, Text.IntToString(amount), number)
  }

  /**
   * The lines `show_selected_entry_details` builds for a recipe's items:
   * line `k` is built for item `k` and numbered `k`.
   */
  function MakeRows(data: seq<Entry>, items: seq<Item>): (rows: seq<Row>)
    ensures |rows| == |items|
    ensures forall k :: 0 <= k < |items| ==> rows[k] == MakeRow(data, items[k].id, items[k].amount, k)
  {
    seq(|items|, k requires 0 <= k < |items| => MakeRow(data, items[k].id, items[k].amount, k))
  }

  /** The item a line describes, as `update_temp_data` reads it. */
  function RowItem(data: seq<Entry>, row: Row): (item: Item)
    ensures item.id.Some? ==> row.choice.Some? && exists i :: 0 <= i < |data| && data[i] == Entry(item.id.value, row.choice.value)
    ensures item.amount == -1 <==> !Text.IsDigits(row.amountText)
  {
    Item(RowId(data, row), ParseAmount(row.amountText))
  }

  /** The items of all lines, in line order. */
  function RowItems(data: seq<Entry>, rows: seq<Row>): (items: seq<Item>)
    ensures |items| == |rows|
    ensures forall k :: 0 <= k < |rows| ==> items[k] == RowItem(data, rows[k])
  {
    seq(|rows|, k requires 0 <= k < |rows| => RowItem(data, rows[k]))
  }

  /**
   * With distinct ingredient names, the name a new line's dropdown chooses
   * resolves back to the id the line was built for.
   */
  lemma ChoiceResolves(data: seq<Entry>, id: Option<int>)
    requires forall i, j :: 0 <= i < j < |data| ==> data[i].name != data[j].name
    ensures RowChoices(data, id).0.Some? ==> GetIdFromName(data, RowChoices(data, id).0.value) == id
  {
    var choice := RowChoices(data, id).0;
    if choice.Some? {
      var i :| 0 <= i < |data| && data[i].id == id.value && data[i].name == choice.value;
      var r := GetIdFromName(data, choice.value);
      var i' :| 0 <= i' < |data| && data[i'].name == choice.value && data[i'].id == r.value;
      assert i' == i;
    }
  }

  /**
   * A line built for an item reads back as that item when the item's id
   * belongs to an ingredient whose name no other ingredient shares and its
   * amount is not negative. An id no ingredient has reads back as None.
   */
  lemma RowRoundTrip(data: seq<Entry>, item: Item, number: int)
    requires forall i, j :: 0 <= i < j < |data| ==> data[i].name != data[j].name
    requires item.amount >= 0
    ensures item.id.Some? && (exists i :: 0 <= i < |data| && data[i].id == item.id.value) ==>
      RowItem(data, MakeRow(data, item.id, item.amount, number)) == item
    ensures item.id.None? || (forall i :: 0 <= i < |data| ==> data[i].id != item.id.value) ==>
      RowItem(data, MakeRow(data, item.id, item.amount, number)) == Item(None, item.amount)
  {
    ParseAmountOfString(item.amount);
    ChoiceResolves(data, item.id);
  }

  /**
   * `get_selected_ingredient_ids`/`get_selected_product_ids` over the lines:
   * the resolved id of each line, in line order, skipping lines that
   * resolve to nothing.
   */
  function ResolvedIds(data: seq<Entry>, rows: seq<Row>): (ids: seq<int>)
    ensures |ids| <= |rows|
    ensures forall v :: v in ids ==> exists k :: 0 <= k < |rows| && RowId(data, rows[k]) == Some(v)
  {
    if rows == [] then []
    else
      var init := rows[..|rows| - 1];
      var last := rows[|rows| - 1];
      var front := ResolvedIds(data, init);
      assert forall v :: v in front ==> exists k :: 0 <= k < |rows| && RowId(data, rows[k]) == Some(v) by {
        forall v | v in front ensures exists k :: 0 <= k < |rows| && RowId(data, rows[k]) == Some(v) {
          var k :| 0 <= k < |init| && RowId(data, init[k]) == Some(v);
          assert rows[k] == init[k];
        }
      }
      match RowId(data, last)
      case Some(v) => front + [v]
      case None => front
  }

  lemma {:induction false} ResolvedIdsAppend(data: seq<Entry>, a: seq<Row>, b: seq<Row>)
    ensures ResolvedIds(data, a + b) == ResolvedIds(data, a) + ResolvedIds(data, b)
    decreases |b|
  {
    if b == [] {
      assert a + b == a;
    } else {
      var b' := b[..|b| - 1];
      assert (a + b)[..|a + b| - 1] == a + b';
      assert (a + b)[|a + b| - 1] == b[|b| - 1];
      ResolvedIdsAppend(data, a, b');
    }
  }

  /** A line that resolves to nothing contributes nothing, wherever it stands. */
  lemma ResolvedIdsSkipUnmatched(data: seq<Entry>, a: seq<Row>, row: Row, b: seq<Row>)
    requires RowId(data, row).None?
    ensures ResolvedIds(data, a + [row] + b) == ResolvedIds(data, a + b)
  {
    ResolvedIdsAppend(data, a + [row], b);
    ResolvedIdsAppend(data, a, [row]);
    ResolvedIdsAppend(data, a, b);
    assert [row][..0] == [];
  }

  /** When every line resolves, there is one id per line: line `k`'s. */
  lemma {:induction false} ResolvedIdsAllMatched(data: seq<Entry>, rows: seq<Row>)
    requires forall k :: 0 <= k < |rows| ==> RowId(data, rows[k]).Some?
    ensures |ResolvedIds(data, rows)| == |rows|
    ensures forall k :: 0 <= k < |rows| ==> ResolvedIds(data, rows)[k] == RowId(data, rows[k]).value
  {
    if rows != [] {
      var init := rows[..|rows| - 1];
      var v := RowId(data, rows[|rows| - 1]).value;
      forall k | 0 <= k < |init| ensures RowId(data, init[k]).Some? {
        assert init[k] == rows[k];
      }
      ResolvedIdsAllMatched(data, init);
      var front := ResolvedIds(data, init);
      var all := ResolvedIds(data, rows);
      assert all == front + [v];
      forall k | 0 <= k < |rows| ensures all[k] == RowId(data, rows[k]).value {
        if k < |init| {
          assert init[k] == rows[k];
          assert all[k] == front[k];
        }
      }
    }
  }

  /** An item every line of which reads back as itself: see `RowRoundTrip`. */
  predicate ReadsBack(data: seq<Entry>, item: Item) {
    && item.amount >= 0
    && item.id.Some?
    && exists i :: 0 <= i < |data| && data[i].id == item.id.value
  }

  /**
   * Lines built, in order, from items that each read back as themselves
   * give back exactly those items.
   */
  lemma RowsReadBack(data: seq<Entry>, items: seq<Item>)
    requires forall i, j :: 0 <= i < j < |data| ==> data[i].name != data[j].name
    requires forall k :: 0 <= k < |items| ==> ReadsBack(data, items[k])
    ensures RowItems(data, MakeRows(data, items)) == items
  {
    var rows := MakeRows(data, items);
    forall k | 0 <= k < |items| ensures RowItems(data, rows)[k] == items[k] {
      RowRoundTrip(data, items[k], k);
    }
  }

  /**
   * How often the renumbering loop `for i in range(row, len(rows))` visits
   * line `k` of `n` lines before reaching `i`: Python's negative indexing
   * makes a negative start visit the tail once more.
   */
  function Hits(row: int, i: int, n: nat, k: nat): nat {
    (if row + n <= k < (if i < 0 then i else 0) + n then 1 else 0) +
    (if (if row < 0 then 0 else row) <= k < i then 1 else 0)
  }

  /** The lines after the renumbering loop: each decremented once per visit. */
  function Renumbered(rows: seq<Row>, row: int): (r: seq<Row>)
    ensures |r| == |rows|
    ensures forall k :: 0 <= k < |rows| ==>
      r[k] == rows[k].(number := rows[k].number - Hits(row, |rows|, |rows|, k))
  {
    seq(|rows|, k requires 0 <= k < |rows| => rows[k].(number := rows[k].number - Hits(row, |rows|, |rows|, k)))
  }

  /**
   * Removing line `row` of lines numbered 0..n-1 leaves lines numbered
   * 0..n-2, in the order they had.
   */
  lemma RemovalKeepsNumbering(rows: seq<Row>, row: nat)
    requires row < |rows|
    requires forall k :: 0 <= k < |rows| ==> rows[k].number == k
    ensures
      var r := Renumbered(rows, row);
      var after := r[..row] + r[row + 1..];
      && |after| == |rows| - 1
      && (forall k :: 0 <= k < |after| ==> after[k].number == k)
      && (forall k :: 0 <= k < |after| ==> after[k].choice == rows[if k < row then k else k + 1].choice)
  {
    var r := Renumbered(rows, row);
    var after := r[..row] + r[row + 1..];
    forall k | 0 <= k < |after|
      ensures after[k].number == k
      ensures after[k].choice == rows[if k < row then k else k + 1].choice
    {
      if k < row { assert after[k] == r[k]; } else { assert after[k] == r[k + 1]; }
    }
  }

  class RecipesTab {
    var dataList: seq<Recipe>
    var tempData: seq<Recipe>
    /** None until the first selection: the attribute does not exist yet. */
    var selectedIndex: Option<nat>
    /** `ingredients_data`: the ingredient rows the dropdowns name. */
    var ingredientsData: seq<Entry>
    var ingredientRows: seq<Row>
    var productRows: seq<Row>

    /**
     * The tab's own invariant: one staged recipe per confirmed recipe. No
     * operation here depends on it (each checks the selection against
     * `tempData` itself); it is kept so that callers keep the two buffers
     * the same length.
     */
    ghost predicate Valid()
      reads this
    {
      |tempData| == |dataList|
    }

    function RowsOf(side: Side): seq<Row>
      reads this
    {
      match side
      case IngredientSide => ingredientRows
      case ProductSide => productRows
    }

    constructor (dataList: seq<Recipe>, ingredientsData: seq<Entry>)
      ensures Valid()
      ensures this.dataList == dataList && tempData == dataList && selectedIndex == None
      ensures this.ingredientsData == ingredientsData && ingredientRows == [] && productRows == []
    {
      this.dataList := dataList;
      tempData := dataList;
      selectedIndex := None;
      this.ingredientsData := ingredientsData;
      ingredientRows := [];
      productRows := [];
    }

    /** Replaces one side's lines, leaving the other side's alone. */
    method SetRows(side: Side, rows: seq<Row>)
      modifies this
      ensures RowsOf(side) == rows
      ensures forall other :: other != side ==> RowsOf(other) == old(RowsOf(other))
      ensures dataList == old(dataList) && tempData == old(tempData)
      ensures selectedIndex == old(selectedIndex) && ingredientsData == old(ingredientsData)
    {
      match side
      case IngredientSide => ingredientRows := rows;
      case ProductSide => productRows := rows;
    }

    /** `load_data`: both buffers and the ingredient list take the loaded rows. */
    method LoadData(data: seq<Recipe>, ingredients: seq<Entry>)
      modifies this
      ensures Valid()
      ensures dataList == data && tempData == data && ingredientsData == ingredients
      ensures selectedIndex == old(selectedIndex)
      ensures ingredientRows == old(ingredientRows) && productRows == old(productRows)
    {
      dataList := data;
      tempData := data;
      ingredientsData := ingredients;
    }

    /**
     * `add_entry`: a non-empty name appends
     * `{id: len(temp_data) + 1, name, ingredients: [], products: []}` to both buffers.
     */
    method AddEntry(name: Option<string>)
      requires Valid()
      modifies this
      ensures Valid() && selectedIndex == old(selectedIndex) && ingredientsData == old(ingredientsData)
      ensures ingredientRows == old(ingredientRows) && productRows == old(productRows)
      ensures name.Some? && name.value != "" ==>
        var r := Recipe(|old(tempData)| + 1, name.value, [], []);
        tempData == old(tempData) + [r] && dataList == old(dataList) + [r]
      ensures !(name.Some? && name.value != "") ==>
        tempData == old(tempData) && dataList == old(dataList)
    {
      if name.Some? && name.value != "" {
        var newEntry := Recipe(|tempData| + 1, name.value, [], []);
        tempData := tempData + [newEntry];
        dataList := dataList + [newEntry];
      }
    }

    /**
     * `show_selected_entry_details`: the staged rows are reset to the
     * confirmed ones; for a selection, the lines are rebuilt from the
     * selected recipe, one per ingredient and per product, numbered in order.
     */
    method ShowSelectedEntryDetails(selection: Option<nat>) returns (shown: Tabs.Shown)
      modifies this
      ensures Valid() && dataList == old(dataList) && tempData == dataList
      ensures ingredientsData == old(ingredientsData)
      ensures selection.None? ==>
        && shown == Tabs.NothingSelected && selectedIndex == old(selectedIndex)
        && ingredientRows == old(ingredientRows) && productRows == old(productRows)
      ensures selection.Some? ==> selectedIndex == selection
      ensures selection.Some? && selection.value >= |dataList| ==>
        shown == Tabs.ShowFailed(Tabs.IndexError) && ingredientRows == [] && productRows == []
      ensures selection.Some? && selection.value < |dataList| ==>
        var r := dataList[selection.value];
        && shown == Tabs.Showing(Tabs.Form(Text.IntToString(r.id), r.name))
        && ingredientRows == MakeRows(ingredientsData, r.ingredients)
        && productRows == MakeRows(ingredientsData, r.products)
    {
      tempData := dataList;
      if selection.None? {
        return Tabs.NothingSelected;
      }
      ingredientRows := [];
      productRows := [];
      selectedIndex := selection;
      var i := selection.value;
      if i >= |tempData| {
        return Tabs.ShowFailed(Tabs.IndexError);
      }
      var selected := tempData[i];
      shown := Tabs.Showing(Tabs.Form(Text.IntToString(selected.id), selected.name));
      ingredientRows := BuildRows(selected.ingredients);
      productRows := BuildRows(selected.products);
    }

    /**
     * The loops of `show_selected_entry_details` that call
     * `create_ingredient_entry`/`create_product_entry` once per item.
     */
    method BuildRows(items: seq<Item>) returns (rows: seq<Row>)
      ensures rows == MakeRows(ingredientsData, items)
    {
      ghost var lines := MakeRows(ingredientsData, items);
      rows := [];
      for row := 0 to |items|
        invariant rows == lines[..row]
      {
        var item := items[row];
        rows := rows + [MakeRow(ingredientsData, item.id, item.amount, row)];
        assert lines[..row + 1] == lines[..row] + [lines[row]];
      }
      assert lines[..|items|] == lines;
    }

    /** The items of one side's lines, collected by the loop of `update_temp_data`. */
    method CollectItems(side: Side) returns (items: seq<Item>)
      ensures items == RowItems(ingredientsData, RowsOf(side))
    {
      var rows := RowsOf(side);
      items := [];
      for j := 0 to |rows|
        invariant |items| == j
        invariant forall k :: 0 <= k < j ==> items[k] == RowItem(ingredientsData, rows[k])
      {
        var id := RowId(ingredientsData, rows[j]);
        var amount := ParseAmount(rows[j].amountText);
        items := items + [Item(id, amount)];
      }
    }

    /**
     * `update_temp_data`, given the form: with a selection and a valid form,
     * the selected staged recipe is rebuilt from the form and the lines;
     * nothing changes when the form is invalid or there are no lines at all.
     */
    method UpdateTempData(form: Tabs.Form) returns (outcome: Tabs.Outcome)
      requires Valid()
      modifies this
      ensures Valid() && dataList == old(dataList) && selectedIndex == old(selectedIndex)
      ensures ingredientsData == old(ingredientsData)
      ensures ingredientRows == old(ingredientRows) && productRows == old(productRows)
      ensures selectedIndex.None? ==> outcome == Tabs.Raised(Tabs.AttributeError) && tempData == old(tempData)
      ensures selectedIndex.Some? && (Tabs.ParseForm(form).None? || ingredientRows == productRows == []) ==>
        outcome == Tabs.Skipped && tempData == old(tempData)
      ensures selectedIndex.Some? && Tabs.ParseForm(form).Some? && !(ingredientRows == productRows == []) ==>
        var i := selectedIndex.value;
        var e := Tabs.ParseForm(form).value;
        var r := Recipe(e.id, e.name, RowItems(ingredientsData, ingredientRows), RowItems(ingredientsData, productRows));
        && (i >= |tempData| ==> outcome == Tabs.Raised(Tabs.IndexError) && tempData == old(tempData))
        && (i < |tempData| ==> outcome == Tabs.Done && tempData == old(tempData)[i := r])
    {
      if selectedIndex.None? {
        return Tabs.Raised(Tabs.AttributeError);
      }
      var newId := Text.ParseId(form.idText);
      if newId.None? || form.name == "" {
        return Tabs.Skipped;
      }
      var ingredients := CollectItems(IngredientSide);
      var products := CollectItems(ProductSide);
      if ingredients == [] && products == [] {
        return Tabs.Skipped;
      }
      var entry := Recipe(newId.value, form.name, ingredients, products);
      var i := selectedIndex.value;
      if i >= |tempData| {
        return Tabs.Raised(Tabs.IndexError);
      }
      tempData := tempData[i := entry];
      outcome := Tabs.Done;
    }

    /**
     * `add_ingredient_entry`/`add_product_entry`: appends the default item
     * `{id: 1, amount: 0}` to the selected staged recipe and a line for it,
     * numbered after the recipe's other items.
     */
    method AddLine(side: Side) returns (outcome: Tabs.Outcome)
      requires Valid()
      modifies this
      ensures Valid() && dataList == old(dataList) && selectedIndex == old(selectedIndex)
      ensures ingredientsData == old(ingredientsData)
      ensures forall other :: other != side ==> RowsOf(other) == old(RowsOf(other))
      ensures selectedIndex.None? ==>
        outcome == Tabs.Raised(Tabs.AttributeError) && tempData == old(tempData) && RowsOf(side) == old(RowsOf(side))
      ensures selectedIndex.Some? && selectedIndex.value >= |tempData| ==>
        outcome == Tabs.Raised(Tabs.IndexError) && tempData == old(tempData) && RowsOf(side) == old(RowsOf(side))
      ensures selectedIndex.Some? && selectedIndex.value < |tempData| ==>
        var i := selectedIndex.value;
        var before := Lines(old(tempData)[i], side);
        && outcome == Tabs.Done
        && tempData == old(tempData)[i := WithLines(old(tempData)[i], side, before + [Item(Some(1), 0)])]
        && RowsOf(side) == old(RowsOf(side)) + [MakeRow(ingredientsData, Some(1), 0, |before|)]
    {
      if selectedIndex.None? {
        return Tabs.Raised(Tabs.AttributeError);
      }
      var i := selectedIndex.value;
      if i >= |tempData| {
        return Tabs.Raised(Tabs.IndexError);
      }
      var itemId, itemAmount := 1, 0;
      var lines := Lines(tempData[i], side) + [Item(Some(itemId), itemAmount)];
      tempData := tempData[i := WithLines(tempData[i], side, lines)];
      SetRows(side, RowsOf(side) + [MakeRow(ingredientsData, Some(itemId), itemAmount, |lines| - 1)]);
      outcome := Tabs.Done;
    }

    /** The renumbering loop of `remove_ingredient_entry`/`remove_product_entry`. */
    method DecrementFrom(side: Side, row: int)
      requires 0 <= |RowsOf(side)| + row
      modifies this
      ensures RowsOf(side) == Renumbered(old(RowsOf(side)), row)
      ensures forall other :: other != side ==> RowsOf(other) == old(RowsOf(other))
      ensures dataList == old(dataList) && tempData == old(tempData)
      ensures selectedIndex == old(selectedIndex) && ingredientsData == old(ingredientsData)
    {
      var rows := RowsOf(side);
      var n := |rows|;
      var i := row;
      while i < n
        invariant row <= i && (row < n ==> i <= n)
        invariant |rows| == n
        invariant forall k :: 0 <= k < n ==>
          rows[k] == old(RowsOf(side))[k].(number := old(RowsOf(side))[k].number - Hits(row, i, n, k))
      {
        var k := Seqs.NormalizeIndex(i, n).value;
        rows := rows[k := rows[k].(number := rows[k].number - 1)];
        i := i + 1;
      }
      SetRows(side, rows);
    }

    /**
     * `remove_ingredient_entry(row)`/`remove_product_entry(row)`: removes line
     * `row` and item `row` of the selected staged recipe, after decrementing
     * the number of every line from `row` on. Subscripts follow Python, so a
     * negative `row` counts from the end. When the staged recipe cannot be
     * reached the lines stay renumbered but nothing is removed.
     */
    method RemoveLine(side: Side, row: int) returns (outcome: Tabs.Outcome)
      requires Valid()
      modifies this
      ensures Valid() && dataList == old(dataList) && selectedIndex == old(selectedIndex)
      ensures ingredientsData == old(ingredientsData)
      ensures forall other :: other != side ==> RowsOf(other) == old(RowsOf(other))
      ensures Seqs.NormalizeIndex(row, |old(RowsOf(side))|).None? ==>
        outcome == Tabs.Raised(Tabs.IndexError) && tempData == old(tempData) && RowsOf(side) == old(RowsOf(side))
      ensures Seqs.NormalizeIndex(row, |old(RowsOf(side))|).Some? ==>
        var k := Seqs.NormalizeIndex(row, |old(RowsOf(side))|).value;
        var renumbered := Renumbered(old(RowsOf(side)), row);
        if selectedIndex.None? then
          outcome == Tabs.Raised(Tabs.AttributeError) && tempData == old(tempData) && RowsOf(side) == renumbered
        else if selectedIndex.value >= |tempData| then
          outcome == Tabs.Raised(Tabs.IndexError) && tempData == old(tempData) && RowsOf(side) == renumbered
        else
          var i := selectedIndex.value;
          var lines := Lines(old(tempData)[i], side);
          if Seqs.NormalizeIndex(row, |lines|).None? then
            outcome == Tabs.Raised(Tabs.IndexError) && tempData == old(tempData) && RowsOf(side) == renumbered
          else
            var j := Seqs.NormalizeIndex(row, |lines|).value;
            && outcome == Tabs.Done
            && tempData == old(tempData)[i := WithLines(old(tempData)[i], side, lines[..j] + lines[j + 1..])]
            && RowsOf(side) == renumbered[..k] + renumbered[k + 1..]
    {
      var k := Seqs.NormalizeIndex(row, |RowsOf(side)|);
      if k.None? {
        return Tabs.Raised(Tabs.IndexError);
      }
      DecrementFrom(side, row);
      if selectedIndex.None? {
        return Tabs.Raised(Tabs.AttributeError);
      }
      var i := selectedIndex.value;
      if i >= |tempData| {
        return Tabs.Raised(Tabs.IndexError);
      }
      var lines := Lines(tempData[i], side);
      var j := Seqs.NormalizeIndex(row, |lines|);
      if j.None? {
        return Tabs.Raised(Tabs.IndexError);
      }
      tempData := tempData[i := WithLines(tempData[i], side, lines[..j.value] + lines[j.value + 1..])];
      var rows := RowsOf(side);
      SetRows(side, rows[..k.value] + rows[k.value + 1..]);
      outcome := Tabs.Done;
    }

    /** `get_selected_ingredient_ids`/`get_selected_product_ids`. */
    method GetSelectedIds(side: Side) returns (ids: seq<int>)
      ensures ids == ResolvedIds(ingredientsData, RowsOf(side))
    {
      var rows := RowsOf(side);
      ids := [];
      for j := 0 to |rows|
        invariant ids == ResolvedIds(ingredientsData, rows[..j])
      {
        assert rows[..j + 1][..j] == rows[..j];
        var name := rows[j].choice;
        var id := if name.None? then None else GetIdFromName(ingredientsData, name.value);
        if id.Some? {
          ids := ids + [id.value];
        }
      }
      assert rows[..|rows|] == rows;
    }
  }

  /**
   * Selecting a recipe and staging the form and lines exactly as shown
   * leaves the staged recipes equal to the confirmed ones, provided the
   * ingredient names are distinct, the recipe has an id that is not
   * negative, a name and at least one line, and every line names a known
   * ingredient with an amount that is not negative.
   */
  method SelectThenStage(tab: RecipesTab, i: nat) returns (staged: Tabs.Outcome)
    requires tab.Valid() && i < |tab.dataList|
    requires forall a, b :: 0 <= a < b < |tab.ingredientsData| ==> tab.ingredientsData[a].name != tab.ingredientsData[b].name
    requires tab.dataList[i].id >= 0 && tab.dataList[i].name != ""
    requires tab.dataList[i].ingredients != [] || tab.dataList[i].products != []
    requires forall k :: 0 <= k < |tab.dataList[i].ingredients| ==> ReadsBack(tab.ingredientsData, tab.dataList[i].ingredients[k])
    requires forall k :: 0 <= k < |tab.dataList[i].products| ==> ReadsBack(tab.ingredientsData, tab.dataList[i].products[k])
    modifies tab
    ensures staged == Tabs.Done
    ensures tab.dataList == old(tab.dataList) && tab.tempData == old(tab.dataList)
    ensures tab.selectedIndex == Some(i)
  {
    var r := tab.dataList[i];
    var shown := tab.ShowSelectedEntryDetails(Some(i));
    Tabs.FormRoundTrip(Entry(r.id, r.name));
    RowsReadBack(tab.ingredientsData, r.ingredients);
    RowsReadBack(tab.ingredientsData, r.products);
    staged := tab.UpdateTempData(shown.form);
    assert tab.tempData[i] == r;
  }
}
