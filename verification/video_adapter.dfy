/** The fikfap library list's selection logic (`VideoAdapter`): the list of
    files shown, the set of selected files, the selection-mode flag whose
    setter empties the set, and what clicks and long clicks do. A file is
    identified by its path. The set is Kotlin's `mutableSetOf`, which keeps
    insertion order, so it is modelled as a sequence without repetitions.
    Row binding, thumbnails and `notifyDataSetChanged` are not modelled; the
    two callbacks are recorded as lists of what they receive. */
module VideoAdapter {

  datatype Action = Play | Share | Delete

  /** No file appears twice. */
  predicate Distinct(s: seq<string>) {
    forall i, j | 0 <= i < j < |s| :: s[i] != s[j]
  }

  function Elements(s: seq<string>): set<string> {
    set x | x in s
  }

  /** A sequence without repetitions has as many elements as its set. */
  lemma {:induction false} DistinctSize(s: seq<string>)
    requires Distinct(s)
    ensures |Elements(s)| == |s|
    decreases |s|
  {
    if |s| > 0 {
      var t := s[..|s| - 1];
      var last := s[|s| - 1];
      assert Distinct(t);
      DistinctSize(t);
      assert s == t + [last];
      assert last !in t by {
        forall i | 0 <= i < |t| ensures t[i] != last {
          assert s[i] == t[i];
        }
      }
      assert Elements(s) == Elements(t) + {last};
    }
  }

  /** `remove` on the insertion-ordered set: `f` is dropped, the rest keeps
      its order. */
  function Remove(s: seq<string>, f: string): (r: seq<string>)
    ensures forall x :: x in r <==> x in s && x != f
    ensures Distinct(s) ==> Distinct(r)
    ensures Distinct(s) && f in s ==> |r| == |s| - 1
    ensures f !in s ==> r == s
    decreases |s|
  {
    if |s| == 0 then []
    else if s[0] == f then
      assert Distinct(s) ==> f !in s[1..] by {
        if Distinct(s) {
          forall i | 0 <= i < |s[1..]| ensures s[1..][i] != f {
            assert s[1..][i] == s[i + 1];
          }
        }
      }
      Remove(s[1..], f)
    else
      var rest := Remove(s[1..], f);
      assert Distinct(s) ==> Distinct([s[0]] + rest) by {
        if Distinct(s) {
          assert Distinct(s[1..]);
          assert s[0] !in s[1..];
          assert s[0] !in rest;
        }
      }
      [s[0]] + rest
  }

  /** `toggleSelection` on the set: a selected file is removed, any other is
      added at the end. */
  function Toggle(s: seq<string>, f: string): (r: seq<string>)
    ensures f in r <==> f !in s
    ensures forall x | x != f :: x in r <==> x in s
    ensures Distinct(s) ==> Distinct(r) && |r| == if f in s then |s| - 1 else |s| + 1
  {
    if f in s then Remove(s, f) else s + [f]
  }

  /** Toggling the same file twice gives the same set back; when the file was
      not selected it gives back the very same order too. */
  lemma ToggleTwice(s: seq<string>, f: string)
    ensures Elements(Toggle(Toggle(s, f), f)) == Elements(s)
    ensures f !in s ==> Toggle(Toggle(s, f), f) == s
  {
    if f !in s {
      RemoveLast(s, f);
    }
  }

  lemma {:induction false} RemoveLast(s: seq<string>, f: string)
    requires f !in s
    ensures Remove(s + [f], f) == s
    decreases |s|
  {
    if |s| > 0 {
      assert (s + [f])[1..] == s[1..] + [f];
      RemoveLast(s[1..], f);
      assert s == [s[0]] + s[1..];
    }
  }

  /** The selection is a set whose size the callback receives, and no file
      is selected outside selection mode. */
  predicate Consistent(selected: seq<string>, selectionMode: bool) {
    Distinct(selected) && (!selectionMode ==> selected == [])
  }

  class Adapter {
    var files: seq<string>
    var selected: seq<string>
    var isSelectionMode: bool
    /** What `onAction` has received, in order. */
    var actions: seq<(Action, string)>
    /** What `onSelectionChanged` has received, in order. */
    var sizeReports: seq<nat>

    predicate Valid()
      reads this
    {
      Consistent(selected, isSelectionMode)
    }

    constructor (initial: seq<string>)
      ensures Valid()
      ensures files == initial && selected == [] && !isSelectionMode
      ensures actions == [] && sizeReports == []
    {
      files, selected, isSelectionMode := initial, [], false;
      actions, sizeReports := [], [];
    }

    /** The `isSelectionMode` setter: leaving selection mode empties the set. */
    method SetSelectionMode(value: bool)
      modifies this
      ensures isSelectionMode == value
      ensures selected == if value then old(selected) else []
      ensures files == old(files) && actions == old(actions) && sizeReports == old(sizeReports)
      ensures old(Distinct(selected)) ==> Valid()
    {
      isSelectionMode := value;
      if !value {
        selected := [];
      }
    }

    /** `toggleSelection`: the callback receives the new size of the set,
        which is the number of files now selected. */
    method ToggleSelection(file: string)
      modifies this
      ensures selected == Toggle(old(selected), file)
      ensures sizeReports == old(sizeReports) + [|selected|]
      ensures old(Distinct(selected)) ==> Distinct(selected) && |selected| == |Elements(selected)|
      ensures files == old(files) && isSelectionMode == old(isSelectionMode) && actions == old(actions)
    {
      if file in selected {
        selected := Remove(selected, file);
      } else {
        selected := selected + [file];
      }
      sizeReports := sizeReports + [|selected|];
      if Distinct(selected) {
        DistinctSize(selected);
      }
    }

    /** The row's checkbox, shown only in selection mode: a toggle. */
    method OnCheckboxClick(file: string)
      modifies this
      ensures selected == Toggle(old(selected), file)
      ensures sizeReports == old(sizeReports) + [|selected|]
      ensures files == old(files) && isSelectionMode == old(isSelectionMode) && actions == old(actions)
      ensures old(Valid()) && isSelectionMode ==> Valid()
    {
      ToggleSelection(file);
    }

    /** A click on a row: a toggle in selection mode, PLAY otherwise. */
    method OnItemClick(file: string)
      modifies this
      ensures old(isSelectionMode) ==>
        selected == Toggle(old(selected), file) && actions == old(actions)
        && sizeReports == old(sizeReports) + [|selected|]
      ensures !old(isSelectionMode) ==>
        selected == old(selected) && actions == old(actions) + [(Play, file)]
        && sizeReports == old(sizeReports)
      ensures files == old(files) && isSelectionMode == old(isSelectionMode)
      ensures old(Valid()) ==> Valid()
    {
      if isSelectionMode {
        ToggleSelection(file);
      } else {
        actions := actions + [(Play, file)];
      }
    }

    /** A long click on a row: outside selection mode it enters the mode and
      selects the file, and is consumed; inside it does nothing. */
    method OnItemLongClick(file: string) returns (consumed: bool)
      modifies this
      ensures consumed <==> !old(isSelectionMode)
      ensures consumed ==>
        isSelectionMode && selected == Toggle(old(selected), file)
        && sizeReports == old(sizeReports) + [|selected|]
      ensures !consumed ==> selected == old(selected) && sizeReports == old(sizeReports)
      ensures old(Valid()) && consumed ==> selected == [file]
      ensures files == old(files) && actions == old(actions) && isSelectionMode
      ensures old(Valid()) ==> Valid()
    {
      if !isSelectionMode {
        SetSelectionMode(true);
        ToggleSelection(file);
        return true;
      }
      return false;
    }

    /** The PLAY, SHARE and DELETE buttons of a row. */
    method OnOptionClick(action: Action, file: string)
      modifies this
      ensures actions == old(actions) + [(action, file)]
      ensures files == old(files) && selected == old(selected)
      ensures isSelectionMode == old(isSelectionMode) && sizeReports == old(sizeReports)
    {
      actions := actions + [(action, file)];
    }

    method GetItemCount() returns (n: nat)
      ensures n == |files|
    {
      n := |files|;
    }

    /** `updateData`: the list is replaced, the selection is kept. */
    method UpdateData(newFiles: seq<string>)
      modifies this
      ensures files == newFiles
      ensures selected == old(selected) && isSelectionMode == old(isSelectionMode)
      ensures actions == old(actions) && sizeReports == old(sizeReports)
    {
      files := newFiles;
    }

    /** `getSelectedFiles`: the selected files, each once, in the order they
      were selected. */
    method GetSelectedFiles() returns (list: seq<string>)
      requires Valid()
      ensures list == selected
      ensures Elements(list) == Elements(selected) && Distinct(list)
      ensures |list| == |Elements(selected)|
    {
      list := selected;
      DistinctSize(list);
    }
  }
}
