/**
 * The file input: its state is the list of chosen files, which each
 * handler replaces and passes to `onChange` as it is.
 */
module FileUploadField {
  import opened JsValues
  import opened Seqs

  /** `value || []`: the initial file list. */
  function InitialFiles(value: Value): (r: Value)
    ensures Truthy(value) ==> r == value
    ensures !Truthy(value) ==> r == Arr([])
  {
    Or(value, Arr([]))
  }

  /**
   * `handleFileChange(e)`: the new list, which is both stored and emitted.
   * `multiple` is the component's prop.
   */
  function HandleFileChange(files: seq<Value>, selectedFiles: seq<Value>, multiple: bool): seq<Value> {
    if multiple then files + selectedFiles else selectedFiles
  }

  /** With `multiple` the chosen files follow the existing ones; without it they replace them. */
  lemma FileChangeSpec(files: seq<Value>, selectedFiles: seq<Value>, multiple: bool)
    ensures var r := HandleFileChange(files, selectedFiles, multiple);
      (multiple ==> |r| == |files| + |selectedFiles| && r[..|files|] == files && r[|files|..] == selectedFiles)
      && (!multiple ==> r == selectedFiles)
  {
  }

  /** `handleRemoveFile(index)`: the new list, stored and emitted. */
  function HandleRemoveFile(files: seq<Value>, index: int): (r: seq<Value>)
    ensures 0 <= index < |files| ==> |r| == |files| - 1 && r == files[..index] + files[index + 1..]
    ensures !(0 <= index < |files|) ==> r == files
  {
    Without(files, index)
  }

  /** Removing the one file just added to a multiple-file list gives the list back. */
  lemma RemoveUndoesAdd(files: seq<Value>, file: Value)
    ensures HandleRemoveFile(HandleFileChange(files, [file], true), |files|) == files
  {
    assert (files + [file])[..|files|] == files;
  }
}
