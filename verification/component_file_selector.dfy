/** The popup that picks an existing module file for a new component or
    names a new one (frontend/src/components/ComponentFileSelector.js).
    The parent's callbacks become out-parameters: what `onSelect`,
    `onCreate` and `onClose` would be called with. */
module ComponentFileSelector {
  import opened Wrappers
  import opened Strings
  import opened Json
  import ItemSelector

  /** What `handleSelect` hands to `onSelect` (and then closes): the
      selected file when it is truthy, nothing otherwise. */
  function SelectedFor(selectedFile: Json): (r: Option<Json>)
    ensures r.Some? <==> Truthy(selectedFile)
    ensures r.Some? ==> r.value == selectedFile
  {
    if Truthy(selectedFile) then Some(selectedFile) else None
  }

  /** What `handleCreateConfirm` hands to `onCreate`: the typed path without
      surrounding white space, and nothing when it is all white space. */
  function ConfirmedPath(newFilePath: string): (r: Option<string>)
    ensures r.None? <==> forall i | 0 <= i < |newFilePath| :: IsJsWhitespace(newFilePath[i])
    ensures r.Some? ==> r.value != [] && !IsJsWhitespace(r.value[0]) && !IsJsWhitespace(r.value[|r.value| - 1])
  {
    var t := Trim(newFilePath);
    if t != [] then Some(t) else None
  }

  /** The "continue" button's `disabled`. */
  predicate ContinueDisabled(selectedFile: Json, creating: bool)
  {
    !Truthy(selectedFile) || creating
  }

  /** The "create" button's `disabled`. */
  predicate CreateDisabled(newFilePath: string, creating: bool)
  {
    Trim(newFilePath) == [] || creating
  }

  /** An enabled "continue" button always reaches `onSelect`, and a
      disabled one is disabled either by the `creating` flag or because
      clicking would do nothing. */
  lemma ContinueButtonMatchesHandler(selectedFile: Json, creating: bool)
    ensures !ContinueDisabled(selectedFile, creating) ==> SelectedFor(selectedFile).Some?
    ensures ContinueDisabled(selectedFile, creating) && !creating ==> SelectedFor(selectedFile).None?
  {
  }

  /** Likewise for the "create" button and `onCreate`. */
  lemma CreateButtonMatchesHandler(newFilePath: string, creating: bool)
    ensures !CreateDisabled(newFilePath, creating) ==> ConfirmedPath(newFilePath) == Some(Trim(newFilePath))
    ensures CreateDisabled(newFilePath, creating) && !creating ==> ConfirmedPath(newFilePath).None?
  {
  }

  /** A path with surrounding white space is confirmed without it. */
  lemma ConfirmedPathTrims()
    ensures ConfirmedPath(" a\t") == Some("a")
  {
    var s := " a\t";
    var t := "a\t";
    assert IsJsWhitespace(s[0]) && s[1..] == t;
    assert !IsJsWhitespace(t[0]);
    assert TrimStart(t) == t;
    assert TrimStart(s) == t;
    assert IsJsWhitespace(t[1]) && t[..1] == "a";
    assert !IsJsWhitespace('a');
    assert TrimEnd("a") == "a";
    assert TrimEnd(t) == "a";
    assert Trim(s) == "a";
  }

  /** A path of white space only is not confirmed. */
  lemma ConfirmedPathBlank()
    ensures ConfirmedPath(" \n") == None
  {
    var s := " \n";
    assert IsJsWhitespace(s[0]) && IsJsWhitespace(s[1]);
  }

  class Component {
    var selectedFile: Json
    var creatingNew: bool
    var newFilePath: string

    constructor()
      ensures selectedFile == Str("") && !creatingNew && newFilePath == ""
    {
      selectedFile := Str("");
      creatingNew := false;
      newFilePath := "";
    }

    /** The effect on `open`: opening the popup clears all three fields;
        closing it leaves them as they are. */
    method OnOpenChange(open: bool)
      modifies this
      ensures open ==> selectedFile == Str("") && !creatingNew && newFilePath == ""
      ensures !open ==> selectedFile == old(selectedFile) && creatingNew == old(creatingNew)
                        && newFilePath == old(newFilePath)
    {
      if open {
        selectedFile := Str("");
        creatingNew := false;
        newFilePath := "";
      }
    }

    /** `handleFileChange(e)`: remembers `e.target.value`. */
    method HandleFileChange(e: Json)
      modifies this
      ensures selectedFile == Get(Get(e, "target"), "value")
      ensures creatingNew == old(creatingNew) && newFilePath == old(newFilePath)
    {
      selectedFile := Get(Get(e, "target"), "value");
    }

    /** `handleSelect`: with a truthy selection, calls `onSelect` with it and
        then `onClose`; otherwise calls neither. */
    method HandleSelect() returns (selected: Option<Json>, closed: bool)
      ensures selected == SelectedFor(selectedFile)
      ensures closed <==> selected.Some?
    {
      if Truthy(selectedFile) {
        selected := Some(selectedFile);
        closed := true;
      } else {
        selected := None;
        closed := false;
      }
    }

    /** `handleCreateNew`: switches to the new-file form with an empty path. */
    method HandleCreateNew()
      modifies this
      ensures creatingNew && newFilePath == ""
      ensures selectedFile == old(selectedFile)
    {
      creatingNew := true;
      newFilePath := "";
    }

    /** `handleCreateConfirm`: calls `onCreate` with the trimmed path when it
        is not blank. The popup stays open and its state is unchanged; the
        parent closes it on success. */
    method HandleCreateConfirm() returns (created: Option<string>)
      ensures created == ConfirmedPath(newFilePath)
    {
      var trimmed := Trim(newFilePath);
      if trimmed != [] {
        created := Some(trimmed);
      } else {
        created := None;
      }
    }

    /** `handleCreateCancel`: back to the file list with an empty path. */
    method HandleCreateCancel()
      modifies this
      ensures !creatingNew && newFilePath == ""
      ensures selectedFile == old(selectedFile)
    {
      creatingNew := false;
      newFilePath := "";
    }

    /** The path input's `onChange`. */
    method HandlePathInput(e: Json)
      modifies this
      requires Get(Get(e, "target"), "value").Str?
      ensures newFilePath == Get(Get(e, "target"), "value").s
      ensures selectedFile == old(selectedFile) && creatingNew == old(creatingNew)
    {
      newFilePath := Get(Get(e, "target"), "value").s;
    }

    /** A selection in the embedded file list, named "file", routed through
        the list's own `handleSelect`: the create-new entry opens the
        new-file form and keeps the selection; any other value becomes the
        selection. Both callbacks are always given. */
    method ChooseInList(list: ItemSelector.Component, selectedValue: Json)
      modifies this, list
      ensures selectedValue == Str(ItemSelector.CreateNew) ==>
                creatingNew && newFilePath == "" && selectedFile == old(selectedFile)
      ensures selectedValue != Str(ItemSelector.CreateNew) ==>
                selectedFile == selectedValue && creatingNew == old(creatingNew)
                && newFilePath == old(newFilePath)
      ensures !list.open
    {
      var effect := list.HandleSelect(selectedValue, Str("file"), true, true);
      match effect
      case CallOnCreate =>
        HandleCreateNew();
      case CallOnChange(event) =>
        HandleFileChange(event);
      case CallNothing =>
        assert false;
      case ThrowsNoOnChange =>
        assert false;
    }
  }
}
