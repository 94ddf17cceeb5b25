/**
 * The edit-buffer rules of a tab (the `Tab` class): the committed rows
 * `data_list`, the staged rows `temp_data`, and the selected row. Widget
 * reads become parameters: the text of the id and name fields, the name
 * typed into the "Add" dialog, and the list box selection.
 */
module Tabs {
  import opened Wrappers
  import opened Records
  import Text

  /** The exceptions a tab method can raise. */
  datatype TabError = IndexError | AttributeError

  /** What a tab method did. */
  datatype Outcome =
    | Done                    // the buffers were changed as asked
    | Skipped                 // a guard failed; nothing changed
    | ErrorEvent(state: int)  // the `<<Error>>` event was raised; nothing changed
    | Raised(error: TabError) // an exception escaped

  /** The `state` of the `<<Error>>` event raised for invalid form input. */
  const InvalidInputState: int := 406

  /** The text shown in the id and name fields. */
  datatype Form = Form(idText: string, name: string)

  /** What `show_selected_entry_details` did with the selection. */
  datatype Shown =
    | NothingSelected
    | Showing(form: Form)
    | ShowFailed(error: TabError)

  /**
   * The validity test of both update methods: the id text is all digits
   * and the name is not empty. A valid form gives the row it describes.
   */
  function ParseForm(form: Form): (r: Option<Entry>)
    ensures r.Some? <==> Text.IsDigits(form.idText) && form.name != ""
    ensures r.Some? ==> Text.ParseId(form.idText) == Some(r.value.id) && r.value.name == form.name
  {
    match Text.ParseId(form.idText)
    case Some(id) => if form.name != "" then Some(Entry(id, form.name)) else None
    case None => None
  }

  /** The form filled from a row: `id_var.set(entry['id'])`, `name_var.set(entry['name'])`. */
  function FormOf(e: Entry): (f: Form)
    ensures f.name == e.name
    ensures Text.ParseId(f.idText) == if e.id >= 0 then Some(e.id) else None
  {
    Text.ParseIdOfString(e.id);
    Form(Text.IntToString(e.id), e.name)
  }

  /**
   * The form filled from a row reads back as that row exactly when its id
   * is not negative and its name is not empty; otherwise it is invalid.
   */
  lemma FormRoundTrip(e: Entry)
    ensures ParseForm(FormOf(e)) == if e.id >= 0 && e.name != "" then Some(e) else None
  {
    Text.ParseIdOfString(e.id);
  }

  class Tab {
    /** `data_list`: the confirmed rows. */
    var dataList: seq<Entry>
    /** `temp_data`: the rows as being edited. */
    var tempData: seq<Entry>
    /** `selected_index`: None until a row has been selected. */
    var selectedIndex: Option<nat>

    /** Every method keeps the two buffers the same length. */
    ghost predicate Valid()
      reads this
    {
      |tempData| == |dataList|
    }

    constructor (dataList: seq<Entry>)
      ensures Valid()
      ensures this.dataList == dataList && tempData == dataList && selectedIndex == None
    {
      this.dataList := dataList;
      tempData := dataList;
      selectedIndex := None;
    }

    /**
     * `add_entry`, given what the dialog returned (None when cancelled): a
     * non-empty name appends the row `{id: len(temp_data) + 1, name}` to
     * both buffers.
     */
    method AddEntry(name: Option<string>)
      requires Valid()
      modifies this
      ensures Valid() && selectedIndex == old(selectedIndex)
      ensures name.Some? && name.value != "" ==>
        var e := Entry(|old(tempData)| + 1, name.value);
        tempData == old(tempData) + [e] && dataList == old(dataList) + [e]
      ensures !(name.Some? && name.value != "") ==>
        tempData == old(tempData) && dataList == old(dataList)
    {
      if name.Some? && name.value != "" {
        var newEntry := Entry(|tempData| + 1, name.value);
        tempData := tempData + [newEntry];
        dataList := dataList + [newEntry];
      }
    }

    /** `load_data`: both buffers take the loaded rows; the selection is kept. */
    method LoadData(data: seq<Entry>)
      modifies this
      ensures Valid()
      ensures dataList == data && tempData == data && selectedIndex == old(selectedIndex)
    {
      dataList := data;
      tempData := data;
    }

    /**
     * `delete_entry`, given the list box selection: removes the selected
     * row from both buffers. The selection index is left as it was.
     */
    method DeleteEntry(selection: Option<nat>) returns (outcome: Outcome)
      requires Valid()
      modifies this
      ensures Valid() && selectedIndex == old(selectedIndex)
      ensures selection.None? ==>
        outcome == Skipped && tempData == old(tempData) && dataList == old(dataList)
      ensures selection.Some? && selection.value >= |old(tempData)| ==>
        outcome == Raised(IndexError) && tempData == old(tempData) && dataList == old(dataList)
      ensures selection.Some? && selection.value < |old(tempData)| ==>
        var i := selection.value;
        && outcome == Done
        && tempData == old(tempData)[..i] + old(tempData)[i + 1..]
        && dataList == old(dataList)[..i] + old(dataList)[i + 1..]
    {
      if selection.None? {
        return Skipped;
      }
      var i := selection.value;
      if i >= |tempData| {
        return Raised(IndexError);
      }
      tempData := tempData[..i] + tempData[i + 1..];
      dataList := dataList[..i] + dataList[i + 1..];
      outcome := Done;
    }

    /**
     * `show_selected_entry_details`: the staged rows are reset to the
     * confirmed ones; a selection is recorded and its row shown in the form.
     */
    method ShowSelectedEntryDetails(selection: Option<nat>) returns (shown: Shown)
      modifies this
      ensures Valid() && dataList == old(dataList) && tempData == dataList
      ensures selection.None? ==> shown == NothingSelected && selectedIndex == old(selectedIndex)
      ensures selection.Some? ==> selectedIndex == selection
      ensures selection.Some? && selection.value < |dataList| ==>
        shown == Showing(FormOf(dataList[selection.value]))
      ensures selection.Some? && selection.value >= |dataList| ==> shown == ShowFailed(IndexError)
    {
      tempData := dataList;
      if selection.None? {
        return NothingSelected;
      }
      selectedIndex := selection;
      var i := selection.value;
      if i >= |tempData| {
        return ShowFailed(IndexError);
      }
      shown := Showing(FormOf(tempData[i]));
    }

    /**
     * `update_selected_entry`, given the form: with a selection and a valid
     * form, the staged row is confirmed into `data_list`; an invalid form
     * raises the error event with state 406.
     */
    method UpdateSelectedEntry(form: Form) returns (outcome: Outcome)
      requires Valid()
      modifies this
      ensures Valid() && tempData == old(tempData) && selectedIndex == old(selectedIndex)
      ensures selectedIndex.None? ==> outcome == Skipped && dataList == old(dataList)
      ensures selectedIndex.Some? && ParseForm(form).None? ==>
        outcome == ErrorEvent(InvalidInputState) && dataList == old(dataList)
      ensures selectedIndex.Some? && ParseForm(form).Some? && selectedIndex.value >= |tempData| ==>
        outcome == Raised(IndexError) && dataList == old(dataList)
      ensures selectedIndex.Some? && ParseForm(form).Some? && selectedIndex.value < |tempData| ==>
        outcome == Done && dataList == old(dataList)[selectedIndex.value := tempData[selectedIndex.value]]
    {
      if selectedIndex.None? {
        return Skipped;
      }
      var newId := Text.ParseId(form.idText);
      if newId.Some? && form.name != "" {
        var i := selectedIndex.value;
        if i >= |tempData| {
          return Raised(IndexError);
        }
        dataList := dataList[i := tempData[i]];
        outcome := Done;
      } else {
        outcome := ErrorEvent(InvalidInputState);
      }
    }

    /**
     * `update_temp_data`, given the form: with a selection and a valid form,
     * the selected staged row becomes `{id: int(id), name}`; otherwise
     * nothing changes. `data_list` is never touched.
     */
    method UpdateTempData(form: Form) returns (outcome: Outcome)
      requires Valid()
      modifies this
      ensures Valid() && dataList == old(dataList) && selectedIndex == old(selectedIndex)
      ensures selectedIndex.None? || ParseForm(form).None? ==>
        outcome == Skipped && tempData == old(tempData)
      ensures selectedIndex.Some? && ParseForm(form).Some? && selectedIndex.value >= |old(tempData)| ==>
        outcome == Raised(IndexError) && tempData == old(tempData)
      ensures selectedIndex.Some? && ParseForm(form).Some? && selectedIndex.value < |old(tempData)| ==>
        outcome == Done && tempData == old(tempData)[selectedIndex.value := ParseForm(form).value]
    {
      if selectedIndex.None? {
        return Skipped;
      }
      var newId := Text.ParseId(form.idText);
      if newId.Some? && form.name != "" {
        var i := selectedIndex.value;
        if i >= |tempData| {
          return Raised(IndexError);
        }
        tempData := tempData[i := Entry(newId.value, form.name)];
        outcome := Done;
      } else {
        outcome := Skipped;
      }
    }
  }

  /**
   * Selecting a row with a non-negative id and a name, then staging and
   * confirming the form exactly as shown, leaves both buffers equal to the
   * confirmed rows: the form round trip loses nothing.
   */
  method SelectStageConfirm(tab: Tab, i: nat) returns (staged: Outcome, confirmed: Outcome)
    requires tab.Valid() && i < |tab.dataList|
    requires tab.dataList[i].id >= 0 && tab.dataList[i].name != ""
    modifies tab
    ensures staged == Done && confirmed == Done
    ensures tab.dataList == old(tab.dataList) && tab.tempData == old(tab.dataList)
    ensures tab.selectedIndex == Some(i)
  {
    var shown := tab.ShowSelectedEntryDetails(Some(i));
    FormRoundTrip(tab.dataList[i]);
    staged := tab.UpdateTempData(shown.form);
    confirmed := tab.UpdateSelectedEntry(shown.form);
  }
}
