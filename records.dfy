/**
 * The rows the editor's tabs hold. The source keeps them as dictionaries;
 * here each kind is a record with the keys the code reads.
 */
module Records {
  import opened Wrappers

  /** An ingredient row `{id, name}`. */
  datatype Entry = Entry(id: int, name: string)

  /**
   * One ingredient or product line of a recipe, `{id, amount}`; the id is
   * None when the dropdown name matched no ingredient.
   */
  datatype Item = Item(id: Option<int>, amount: int)

  /** A recipe row `{id, name, ingredients, products}`. */
  datatype Recipe = Recipe(id: int, name: string, ingredients: seq<Item>, products: seq<Item>)

  /** The `id` of every row, in order. */
  function IdsOf(source: seq<Entry>): (ids: seq<int>)
    ensures |ids| == |source|
    ensures forall i :: 0 <= i < |source| ==> ids[i] == source[i].id
  {
    seq(|source|, i requires 0 <= i < |source| => source[i].id)
  }

  /** The `name` of every row, in order. */
  function NamesOf(source: seq<Entry>): (names: seq<string>)
    ensures |names| == |source|
    ensures forall i :: 0 <= i < |source| ==> names[i] == source[i].name
  {
    seq(|source|, i requires 0 <= i < |source| => source[i].name)
  }

  /** The id and name of every recipe: the keys the duplicate scan reads. */
  function Headers(recipes: seq<Recipe>): (heads: seq<Entry>)
    ensures |heads| == |recipes|
    ensures forall i :: 0 <= i < |recipes| ==> heads[i] == Entry(recipes[i].id, recipes[i].name)
  {
    seq(|recipes|, i requires 0 <= i < |recipes| => Entry(recipes[i].id, recipes[i].name))
  }

  /**
   * `[e['name'] for e in source if e['id'] == id]`: one name per row carrying
   * the id, in row order.
   */
  function NamesWithId(source: seq<Entry>, id: int): (names: seq<string>)
    ensures |names| == multiset(IdsOf(source))[id]
  {
    if source == [] then []
    else
      assert IdsOf(source) == [source[0].id] + IdsOf(source[1..]);
      var rest := NamesWithId(source[1..], id);
      if source[0].id == id then [source[0].name] + rest else rest
  }

  /** Every name in the list comes from a row carrying the id. */
  lemma {:induction false} NamesWithIdFromRows(source: seq<Entry>, id: int)
    ensures forall n :: n in NamesWithId(source, id) ==> exists i :: 0 <= i < |source| && source[i] == Entry(id, n)
  {
    if source != [] {
      var tail := source[1..];
      NamesWithIdFromRows(tail, id);
      forall n | n in NamesWithId(source, id) ensures exists i :: 0 <= i < |source| && source[i] == Entry(id, n) {
        if !(source[0] == Entry(id, n)) {
          assert n in NamesWithId(tail, id);
          var j :| 0 <= j < |tail| && tail[j] == Entry(id, n);
          assert source[j + 1] == Entry(id, n);
        }
      }
    }
  }

  /** Some row carries the id exactly when the name list is non-empty. */
  lemma NamesWithIdNonEmpty(source: seq<Entry>, id: int)
    ensures NamesWithId(source, id) != [] <==> exists i :: 0 <= i < |source| && source[i].id == id
  {
    var ids := IdsOf(source);
    assert id in multiset(ids) <==> id in ids;
    if id in ids {
      var i :| 0 <= i < |ids| && ids[i] == id;
      assert source[i].id == id;
    }
  }

  /** When row `i` is the first carrying the id, the list's head is its name. */
  lemma {:induction false} NamesWithIdHead(source: seq<Entry>, id: int, i: nat)
    requires i < |source| && source[i].id == id
    requires forall j :: 0 <= j < i ==> source[j].id != id
    ensures NamesWithId(source, id) != [] && NamesWithId(source, id)[0] == source[i].name
  {
    if i > 0 {
      var tail := source[1..];
      forall j | 0 <= j < i - 1 ensures tail[j].id != id {
        assert tail[j] == source[j + 1];
      }
      NamesWithIdHead(tail, id, i - 1);
    }
  }
}
