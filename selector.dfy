/**
 * The file selector and the diff selector: `select` elements that the hook
 * fills with one `option` per display name.
 */
module Selector {

  /** An `option` element: its value is the index of the snippet, its text the name. */
  datatype SelectOption = SelectOption(value: nat, text: string)

  /** One option per name: option `i` has value `i` and the `i`-th name as label. */
  function Options(names: seq<string>): (opts: seq<SelectOption>)
    ensures |opts| == |names|
    ensures forall i :: 0 <= i < |names| ==> opts[i] == SelectOption(i, names[i])
  {
    if names == [] then [] else Options(names[..|names| - 1]) + [SelectOption(|names| - 1, names[|names| - 1])]
  }

  /**
   * A single-choice `select` element. As in the browser, an empty one has
   * `selectedIndex` -1, and the first option appended to it becomes selected.
   */
  class Select {
    var id: string
    var options: seq<SelectOption>
    var selectedIndex: int

    ghost predicate Valid()
      reads this
    {
      -1 <= selectedIndex < |options| && (selectedIndex == -1 <==> options == [])
    }

    /** `document.createElement("select")` followed by setting its `id`. */
    constructor (id: string)
      ensures Valid() && this.id == id && options == [] && selectedIndex == -1
    {
      this.id := id;
      options := [];
      selectedIndex := -1;
    }

    /** `appendChild(opt)`: the option goes last; an empty select selects it. */
    method AppendChild(opt: SelectOption)
      requires Valid()
      modifies this`options, this`selectedIndex
      ensures Valid()
      ensures options == old(options) + [opt]
      ensures selectedIndex == if old(options) == [] then 0 else old(selectedIndex)
    {
      options := options + [opt];
      if selectedIndex == -1 {
        selectedIndex := 0;
      }
    }

    /** The `names.forEach` loop: one option per name, value = index, label = name. */
    method AddOptions(names: seq<string>)
      requires Valid() && options == []
      modifies this`options, this`selectedIndex
      ensures Valid()
      ensures options == Options(names)
      ensures selectedIndex == if names == [] then -1 else 0
    {
      var idx := 0;
      while idx < |names|
        invariant 0 <= idx <= |names|
        invariant Valid()
        invariant options == Options(names[..idx])
        invariant selectedIndex == if idx == 0 then -1 else 0
      {
        AppendChild(SelectOption(idx, names[idx]));
        assert names[..idx + 1][..idx] == names[..idx];
        idx := idx + 1;
      }
      assert names[..|names|] == names;
    }

    /** The user picks option `i`; the `onchange` handler then reads `value`. */
    method Choose(i: nat)
      requires Valid() && i < |options|
      modifies this`selectedIndex
      ensures Valid() && selectedIndex == i
    {
      selectedIndex := i;
    }
  }

  /**
   * A selector as the hook builds it: a new `select` with the given `id`,
   * holding one option per name and selecting the first one, if any.
   */
  method NewSelect(id: string, names: seq<string>) returns (s: Select)
    ensures fresh(s) && s.Valid() && s.id == id
    ensures s.options == Options(names)
    ensures s.selectedIndex == if names == [] then -1 else 0
  {
    s := new Select(id);
    s.AddOptions(names);
  }
}
