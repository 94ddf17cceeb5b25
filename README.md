# Recipe editor core, modelled in Dafny

This project models the data logic of a small Tk-based recipe editor. The
editor keeps ingredients as `{id, name}` rows and recipes as
`{id, name, ingredients, products}` rows. Each recipe line is an
`{id, amount}` item. Four parts are modelled:

- `PList` (`protected_list.dfy`). A list with a committed buffer and a
  working buffer. Every list operation edits the working copy. `reset`
  drops the edits, and `update` writes them into the committed buffer in
  place. It is a class with two `seq` fields, and its methods are the
  Python list operations with Python's index rules written out: negative
  subscripts, `IndexError`/`ValueError`, the clamping of `insert` and of
  integer `index` bounds, and the `TypeError` that `index` raises when
  its default `stop=None` reaches `list.index`. `update` is its three
  loops, proved against the function `Committed`.
- The duplicate-id scanner (`warnings.dfy`). `detect_overlapping_ids`
  reports each id that occurs more than once, with the names of the rows
  that carry it, in order of first occurrence. `detect_warnings` scans
  the ingredients, then the recipe headers. The scanner is a loop proved
  against the predicate `IsOverlapReport`. The report that predicate
  describes is unique, and it is empty when the ids are distinct.
- The `Tab` edit buffers (`tab.dfy`). These are the committed rows
  `data_list`, the staged rows `temp_data` and the selected index. The
  form's id and name texts, the "Add" dialog's answer and the list box
  selection become parameters. A form shown for a row with a
  non-negative id and a non-empty name reads back as that row. For any
  other row the shown form is invalid: a negative id is shown as `-1`,
  which `isdigit` rejects.
- `RecipesTab` (`recipes_tab.dfy`). This is the tab for recipes, with one
  editable line per ingredient and per product. A line is modelled by
  what its widgets hold: the dropdown's choice and options, the amount
  text and the row number. The module covers building lines from a
  recipe, reading them back into items, adding and removing lines (with
  the renumbering loop, under Python indexing), and collecting the
  selected ids.

Shared pieces:

- `text.dfy`: `str.isdigit`, `int()` and `str()` on non-negative
  integers, with their round trip.
- `seqs.dfy`: a bounded first-index search.
- `records.dfy`: the row types and the name lookup by id.

## Model

| member | source | states |
|---|---|---|
| Text.IsDigits | app/tab.py:98 | `s.isdigit()`: `s` is non-empty and every character is an ASCII digit; so the empty string and a string with a minus sign are rejected |
| Text.DigitsValue | app/tab.py:98-99 | `int(s)` of a digit string: below `10^len(s)`, and positive when the leading digit is not 0 |
| Text.IntToString | app/tab.py:87 | `str(i)`: the digits of a non-negative `i`, or a minus sign followed by digits |
| Text.NatToString | app/tab.py:87 | `str(n)` is a non-empty digit string without a leading zero |
| Text.ParseId | app/tab.py:96-101 | a field is accepted as an id exactly when it is all ASCII digits |
| Text.DigitsRoundTrip | app/tab.py:114-115 | `int(str(n)) == n` for every natural `n` |
| Text.ParseIdOfString | app/tab.py:112-117 | the id text shown for a row reads back as that id when it is not negative, and is rejected otherwise |
| Seqs.FirstIndex | app/protected_list.py:99-100 | the first position in `[lo, hi)` holding the value, or none when no position in that range holds it |
| Seqs.FirstIndexFindsMember | app/protected_list.py:99-100 | a search over the whole list finds the value exactly when it is a member |
| Seqs.NormalizeIndex | app/protected_list.py:10-14 | a subscript is valid exactly when `-n <= i < n`; a negative subscript counts from the end |
| ProtectedList.ClampIndex | app/protected_list.py:87-88 | `insert`/`index` bounds are clamped into `[0, n]` after counting negatives from the end |
| ProtectedList.Reversed | app/protected_list.py:102-103 | position `i` of the result is position `n-1-i` of the input |
| ProtectedList.ReversedInvolution | app/protected_list.py:102-103 | reversing twice gives the list back |
| ProtectedList.Committed | app/protected_list.py:111-127 | the committed buffer after `update`: the working elements, then any committed elements past the working length |
| ProtectedList.CommittedEqualsWorking | app/protected_list.py:119-127 | when the working buffer is at least as long, `update` makes the committed buffer equal to it |
| ProtectedList.CommittedAfterShrinkKeepsTail | app/protected_list.py:112-118 | after shrinking, `update` keeps the committed tail, so the buffers differ |
| ProtectedList.CommittedIdempotent | app/protected_list.py:111-127 | a second `update` with no edits in between changes nothing |
| ProtectedList.PList.constructor | app/protected_list.py:4-8 | both buffers start as the initial list, which defaults to empty |
| ProtectedList.PList.GetItem | app/protected_list.py:10-11 | the element at a Python subscript of the working buffer, or `IndexError` |
| ProtectedList.PList.SetItem | app/protected_list.py:13-14 | replaces one working element at a valid subscript and nothing else; `IndexError` otherwise |
| ProtectedList.PList.DelItem | app/protected_list.py:51-52 | removes one working element at a valid subscript; `IndexError` otherwise |
| ProtectedList.PList.Length | app/protected_list.py:16-17 | the working length |
| ProtectedList.PList.Contains | app/protected_list.py:22-23 | membership in the working buffer |
| ProtectedList.PList.Append | app/protected_list.py:75-76 | the working buffer gains the value at its end; the committed buffer is untouched |
| ProtectedList.PList.Extend | app/protected_list.py:78-79 | the working buffer gains the values at its end |
| ProtectedList.PList.Pop | app/protected_list.py:81-82 | removes the element at the subscript, by default the last; `IndexError` on an empty buffer or a bad subscript |
| ProtectedList.PList.Remove | app/protected_list.py:84-85 | removes the first occurrence of the value; `ValueError` when it is absent |
| ProtectedList.PList.Insert | app/protected_list.py:87-88 | inserts before the clamped position |
| ProtectedList.PList.Clear | app/protected_list.py:90-91 | the working buffer becomes empty |
| ProtectedList.PList.Copy | app/protected_list.py:93-94 | the working contents |
| ProtectedList.PList.Count | app/protected_list.py:96-97 | the number of occurrences of the value |
| ProtectedList.PList.Index | app/protected_list.py:99-100 | the default `stop=None` raises `TypeError`; an integer `stop` gives the first position of the value within the clamped `[start, stop)` window, or `ValueError` |
| ProtectedList.PList.IndexToEnd | app/protected_list.py:99-100 | corrected `index`: a missing `stop` searches to the end, otherwise as `Index` |
| ProtectedList.PList.Reverse | app/protected_list.py:102-103 | the working buffer becomes its reverse |
| ProtectedList.PList.Reset | app/protected_list.py:108-109 | the working buffer becomes the committed contents |
| ProtectedList.PList.TrimChanged | app/protected_list.py:115-116 | pops the working buffer down to the committed length |
| ProtectedList.PList.Update | app/protected_list.py:111-127 | the working buffer is unchanged and the committed buffer becomes `Committed(old committed, working)` |
| ProtectedList.PList.UpdateTruncating | app/protected_list.py:111-127 | corrected `update`: both buffers end equal to the working contents |
| ProtectedList.PList.Original | app/protected_list.py:129-131 | the committed contents |
| ProtectedList.ExampleSession | protected_example.py:3-40 | the example's edits stay in the working buffer until `update`; `reset` discards later ones |
| ProtectedList.ErrorSession | app/protected_list.py:10-11 | failed subscript and `remove` calls raise and leave the working buffer unchanged |
| ProtectedList.ShrinkSession | app/protected_list.py:111-118 | pop, edit, `update`, `reset` brings the popped element back |
| ProtectedList.IndexSession | app/protected_list.py:99-100 | `index(2)` on `[1, 2, 3]` raises `TypeError`; with `stop=3`, or with the corrected default, it gives 1 |
| ProtectedList.ShrinkSessionTruncating | app/protected_list.py:111-118 | with the corrected `update` the popped element stays gone |
| Records.IdsOf | editor_tool.py:141-146 | the id column of a table, row by row |
| Records.NamesOf | app/recipes_tab.py:160-161 | the name column, row by row |
| Records.Headers | editor_tool.py:131 | the `{id, name}` part of each recipe, in order |
| Records.NamesWithId | editor_tool.py:150 | the names of the rows with an id: exactly as many as the id's occurrences |
| Records.NamesWithIdFromRows | editor_tool.py:150 | every name in that list comes from a row carrying the id |
| Records.NamesWithIdNonEmpty | app/recipes_tab.py:106-107 | that list is non-empty exactly when some row has the id |
| Records.NamesWithIdHead | app/recipes_tab.py:106-108 | its head is the name of the first row carrying the id |
| Warnings.Duplicated | editor_tool.py:149 | `ids.count(id) > 1`; equivalently, more than one name is listed for the id |
| Warnings.MessageAt | editor_tool.py:150-151 | the warning built at row `k`: row `k`'s id and the names of all rows carrying it, a list that is never empty |
| Warnings.FirstPos | editor_tool.py:148-153 | the position of the first row with an id |
| Warnings.ScanSeenBefore | editor_tool.py:152 | a duplicated id first seen earlier in the scan has already been reported |
| Warnings.ScanStepAppend | editor_tool.py:149-153 | appending the new message keeps the scan invariant |
| Warnings.ScanStepKeep | editor_tool.py:148-153 | skipping a row keeps the scan invariant |
| Warnings.DetectOverlappingIds | editor_tool.py:135-155 | one warning per duplicated id, carrying the names of its rows, and no others, in order of first occurrence |
| Warnings.DetectWarnings | editor_tool.py:128-131 | the ingredient report followed by the recipe-header report |
| Warnings.DuplicatedOccurs | editor_tool.py:149 | a duplicated id occurs in the table |
| Warnings.ReportedOnce | editor_tool.py:152-153 | no id is reported twice |
| Warnings.OrderedSameMembersEqual | editor_tool.py:148-153 | two lists strictly ordered by the same rank with the same members are equal |
| Warnings.ReportedInEvery | ingreadient_app.py:108-123 | every warning of one report of a table is in any other report of it |
| Warnings.ReportIsUnique | ingreadient_app.py:108-123 | the report is determined by the table: any two reports of it are equal |
| Warnings.DistinctIdsOccurOnce | ingreadient_app.py:117 | with distinct ids each id is counted at most once |
| Warnings.DistinctIdsNoWarnings | ingreadient_app.py:108-123 | a table with distinct ids yields no warnings |
| Tabs.ParseForm | app/tab.py:96-102 | the form is valid exactly when the id text is all digits and the name is not empty, and then gives that row |
| Tabs.FormOf | app/tab.py:86-88 | the form filled from a row: its name, and an id text that parses back to the id when the id is not negative |
| Tabs.FormRoundTrip | app/tab.py:86-88 | the form filled from a row reads back as the row when its id is not negative and its name is not empty |
| Tabs.Tab.constructor | app/tab.py:5-10 | both buffers hold the given rows and nothing is selected |
| Tabs.Tab.AddEntry | app/tab.py:55-63 | a non-empty name appends `{id: len + 1, name}` to both buffers; otherwise nothing changes |
| Tabs.Tab.LoadData | app/tab.py:65-67 | both buffers take the loaded rows |
| Tabs.Tab.DeleteEntry | app/tab.py:72-79 | deletes the selected row from both buffers; `IndexError` past the end |
| Tabs.Tab.ShowSelectedEntryDetails | app/tab.py:81-88 | staged rows reset to the confirmed ones; a selection is recorded and its row shown, or `IndexError` |
| Tabs.Tab.UpdateSelectedEntry | app/tab.py:94-108 | a valid form confirms the staged row; an invalid form raises the error event with state 406 |
| Tabs.Tab.UpdateTempData | app/tab.py:110-120 | a valid form replaces the selected staged row; `data_list` is untouched |
| Tabs.SelectStageConfirm | app/tab.py:81-120 | select, stage and confirm the form as shown: both buffers equal the confirmed rows |
| RecipesTabs.Lines | app/recipes_tab.py:145 | a recipe's items on one side: `entry['ingredients']` for the ingredient side, `entry['products']` for the product side |
| RecipesTabs.WithLines | app/recipes_tab.py:216 | replaces one side's items and keeps the rest of the recipe |
| RecipesTabs.GetIdFromName | app/recipes_tab.py:226-230 | the id of the first ingredient with that name, or none when no ingredient has it |
| RecipesTabs.RowId | app/recipes_tab.py:196-197 | a line resolves to an id exactly when it has a choice that names some ingredient |
| RecipesTabs.ParseAmount | app/recipes_tab.py:198-199 | an amount field reads as -1 exactly when it is not all digits |
| RecipesTabs.ParseAmountOfString | app/recipes_tab.py:198-199 | a shown amount reads back unchanged when it is not negative |
| RecipesTabs.Without | app/recipes_tab.py:109 | the names other than the given one |
| RecipesTabs.RowChoices | app/recipes_tab.py:105-137 | with a known id the first matching name is chosen and the other names offered; otherwise nothing is chosen and all names are offered |
| RecipesTabs.MakeRow | app/recipes_tab.py:105-137 | a line built by `create_ingredient_entry`/`create_product_entry` keeps the row number, has a choice exactly when some ingredient has the id, and its amount text reads back as the amount when that is not negative |
| RecipesTabs.MakeRows | app/recipes_tab.py:80-89 | one line per item, line `k` built for item `k` and numbered `k` |
| RecipesTabs.ChoiceResolves | app/recipes_tab.py:105-110 | with distinct ingredient names, a new line's chosen name resolves back to the id it was built for |
| RecipesTabs.RowItem | app/recipes_tab.py:196-200 | the item a line gives: an id only from an ingredient row with the chosen name, and -1 exactly for non-digit amount text |
| RecipesTabs.RowItems | app/recipes_tab.py:195-207 | one item per line, in line order |
| RecipesTabs.RowRoundTrip | app/recipes_tab.py:105-207 | with distinct ingredient names and a non-negative amount, the line built for an item with a known id reads back as the item; an unknown id reads back as none |
| RecipesTabs.RowsReadBack | app/recipes_tab.py:80-89 | lines built from such items read back as exactly those items |
| RecipesTabs.ResolvedIds | app/recipes_tab.py:163-181 | at most one id per line, each resolved from some line |
| RecipesTabs.ResolvedIdsAppend | app/recipes_tab.py:166-170 | the ids of concatenated lines are the concatenation of their ids |
| RecipesTabs.ResolvedIdsSkipUnmatched | app/recipes_tab.py:168-170 | a line naming no ingredient contributes nothing |
| RecipesTabs.ResolvedIdsAllMatched | app/recipes_tab.py:163-171 | when every line resolves, there is one id per line, line by line |
| RecipesTabs.Renumbered | app/recipes_tab.py:143-144 | each line's number is decremented once per visit of the renumbering loop |
| RecipesTabs.RemovalKeepsNumbering | app/recipes_tab.py:140-147 | removing a line from lines numbered 0..n-1 leaves lines numbered 0..n-2, in order |
| RecipesTabs.RecipesTab.constructor | app/recipes_tab.py:10-19 | buffers hold the recipes, no lines, and no selection attribute yet |
| RecipesTabs.RecipesTab.SetRows | app/recipes_tab.py:96 | replaces one side's lines and nothing else |
| RecipesTabs.RecipesTab.LoadData | app/recipes_tab.py:52-54 | both buffers and the ingredient list take the loaded data |
| RecipesTabs.RecipesTab.AddEntry | app/recipes_tab.py:56-64 | a non-empty name appends an empty recipe with id `len + 1` to both buffers |
| RecipesTabs.RecipesTab.ShowSelectedEntryDetails | app/recipes_tab.py:66-89 | staged recipes reset; the lines are rebuilt from the selected recipe, one per item, numbered in order, or `IndexError` |
| RecipesTabs.RecipesTab.BuildRows | app/recipes_tab.py:80-89 | the loop's lines are `MakeRows` of the items |
| RecipesTabs.RecipesTab.CollectItems | app/recipes_tab.py:195-207 | the items read from one side's lines |
| RecipesTabs.RecipesTab.UpdateTempData | app/recipes_tab.py:183-210 | a valid form with some line replaces the selected staged recipe by the form and the lines' items; `AttributeError` before any selection |
| RecipesTabs.RecipesTab.AddLine | app/recipes_tab.py:212-224 | appends the item `{id: 1, amount: 0}` and its line, numbered after the existing items |
| RecipesTabs.RecipesTab.DecrementFrom | app/recipes_tab.py:143-144 | the renumbering loop, under Python indexing |
| RecipesTabs.RecipesTab.RemoveLine | app/recipes_tab.py:140-157 | `IndexError` on a bad row; otherwise renumbers, then removes the staged item and the line, or raises |
| RecipesTabs.RecipesTab.GetSelectedIds | app/recipes_tab.py:163-181 | the ids the lines' choices resolve to, in line order |
| RecipesTabs.SelectThenStage | app/recipes_tab.py:66-210 | select a recipe, then stage the form and lines as shown: the staged recipes equal the confirmed ones |

## Left out

- Tk widgets, layout, list box contents and `clear_attributes` are not modelled. Widget reads are parameters.
- Variable traces are not modelled: the `StringVar` callbacks that re-run `update_temp_data` whenever a field is set. Each method is modelled as one call.
- The 5-second re-run of `detect_warnings` and its label text are not modelled. A `Warning` is the id and names a message is built from. The message text is taken to be injective in them, so `message not in warnings` becomes a membership test on warnings.
- `app/data_model.py` (file I/O) and `app/value_box.py` are not part of this model.
- PList's operator methods, iterators and `str`/`repr` are not modelled. Most forward to the working list. `__iadd__` and `__imul__` return the bare working list, so after `p += x` or `p *= n` the name `p` is bound to a plain list, not to the PList.
- PList's slices are not modelled; subscripts are integers.
- `PList.sort` is not modelled: it passes `key` positionally, which Python rejects.
- The `current` attribute set in `protected_example.py` after line 40 is not modelled: the class has no such attribute, so that assignment leaves both buffers alone.
- Aliasing is not modelled. Rows are values, so edits shared through the same dictionary object are invisible here. In the source, `add_entry` puts one dictionary into both buffers, and `Tab.show_selected_entry_details` copies only the list. On a RecipesTab this has a visible effect. After `load_data` (`data.copy()`, app/tab.py:67) or the inherited confirm (app/tab.py:103), `temp_data[sel]` and `data_list[sel]` are the same dictionary. Adding or removing a line (app/recipes_tab.py:145, 216) then also changes the confirmed recipe in the source. `RecipesTabs.RecipesTab.AddLine` and `RecipesTabs.RecipesTab.RemoveLine` instead leave `dataList` unchanged. The sharing ends when `update_temp_data` stores a freshly built recipe at the selection.
- Extra keys of a recipe are dropped by `update_temp_data` in the source, because it rebuilds the recipe with exactly the keys `id`, `name`, `ingredients` and `products` (app/recipes_tab.py:193). The model's rows have no extra keys, so this loss is not visible here.
- Extra keys of a row are not modelled. A missing `ingredients`, `products`, `id` or `amount` key is not modelled either, except that a line's item id may be absent.
- RecipesTab's inherited `delete_entry` and `update_selected_entry` are not modelled for RecipesTab. `Tabs.Tab` models them on `{id, name}` rows only. On a RecipesTab they act on recipe rows. Before the first selection, the inherited `update_selected_entry` raises `AttributeError` there, because `RecipesTab.__init__` never sets `selected_index`. `Tabs.Tab.UpdateSelectedEntry` would return `Skipped` instead.
- A line whose dropdown has no choice reads as no choice. Tk's `StringVar` would hold a text for it, and that text could name an ingredient.
- `str.isdigit` is taken as non-empty ASCII digits. Other Unicode digits are not modelled.
- RecipesTabs.RecipesTab.ShowSelectedEntryDetails: the id field's text is modelled as `str(id)`, as `StringVar.set` stores it.

## Findings

`update` is documented as making the committed buffer match the working buffer. In its shrink branch, the code keeps the committed tail instead. `ProtectedList.PList.Update` models the code as written.
`index` keeps the `None` default of `Sequence.index`, but it passes that default to `list.index`, which rejects it. `ProtectedList.PList.Index` models the `TypeError` as written.

| source | as written | input that shows it | evidently intended | confidence | as-written member | corrected member |
|---|---|---|---|---|---|---|
| app/protected_list.py:112-118 | when the working buffer is shorter, `update` copies the working positions but never shortens the committed buffer. The `while` at lines 115-116 pops the working buffer, which in that branch is never longer | start `[1, 2, 3]`, `pop()`, set position 0 to 2, `update()`: committed is `[2, 2, 3]`, and `reset()` brings back the popped 3 | after `update` the committed buffer equals the working buffer `[2, 2]` | medium, not executed | ProtectedList.ShrinkSession | ProtectedList.PList.UpdateTruncating |
| app/protected_list.py:99-100 | `index` defaults `stop` to `None` and passes it to `list.index`, which accepts only integer bounds | `PList([1, 2, 3]).index(2)` raises `TypeError` | a missing `stop` searches to the end of the list | medium, not executed | ProtectedList.IndexSession | ProtectedList.PList.IndexToEnd |
