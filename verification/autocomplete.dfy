/** ui/components/AutocompleteInput.tsx: a text input whose dropdown lists
    the options containing the typed text, case aside. The value is owned
    by the parent; the component keeps only whether the dropdown is open,
    and reports to the parent through its callbacks, recorded here in the
    order they are made. */
module Autocomplete {
  import opened Common

  /** `filtered`: the options whose lower-cased text contains the
      lower-cased value, in their order. */
  function Filtered(options: seq<string>, value: string): (r: seq<string>)
    ensures IsSubsequence(r, options)
    ensures forall o :: o in r <==> o in options && Includes(Lower(o), Lower(value))
  {
    var keep := (o: string) => Includes(Lower(o), Lower(value));
    FilterSpec(options, keep);
    Filter(options, keep)
  }

  /** An empty value offers every option. */
  lemma EmptyValueKeepsAll(options: seq<string>)
    ensures Filtered(options, "") == options
  {
    forall i | 0 <= i < |options| ensures Includes(Lower(options[i]), Lower("")) {
      EmptyIsIncluded(Lower(options[i]));
    }
    FilterKeepsAll(options, (o: string) => Includes(Lower(o), Lower("")));
  }

  /** A call the component makes to its parent. */
  datatype Callback = OnChange(value: string) | OnOptionSelect(value: string)

  class AutocompleteInput {
    var open: bool
    /** The callbacks made so far, oldest first. */
    var calls: seq<Callback>
    /** Whether the parent passed `onOptionSelect`. */
    const hasOptionSelect: bool

    constructor(hasOptionSelect: bool)
      ensures !open && calls == [] && this.hasOptionSelect == hasOptionSelect
    {
      open := false;
      calls := [];
      this.hasOptionSelect := hasOptionSelect;
    }

    /** The dropdown shows when it is open and some option matches. */
    function DropdownVisible(options: seq<string>, value: string): (b: bool)
      reads this
      ensures b <==> open && exists o :: o in options && Includes(Lower(o), Lower(value))
    {
      assert |Filtered(options, value)| > 0 ==> Filtered(options, value)[0] in Filtered(options, value);
      open && |Filtered(options, value)| > 0
    }

    /** Typing reports the new text and opens the dropdown. */
    method Type(text: string)
      modifies this
      ensures open && calls == old(calls) + [OnChange(text)]
    {
      calls := calls + [OnChange(text)];
      open := true;
    }

    /** Focusing the input opens the dropdown. */
    method Focus()
      modifies this`open
      ensures open
    {
      open := true;
    }

    /** A mouse press outside the component closes the dropdown. */
    method ClickOutside()
      modifies this`open
      ensures !open
    {
      open := false;
    }

    /** `handleSelect`: the parent first learns the new text, then (if it
      asked) which option was picked, always the same value; the dropdown
      closes. */
    method HandleSelect(val: string)
      modifies this
      ensures !open
      ensures calls == old(calls) + [OnChange(val)] + (if hasOptionSelect then [OnOptionSelect(val)] else [])
    {
      calls := calls + [OnChange(val)];
      if hasOptionSelect {
        calls := calls + [OnOptionSelect(val)];
      }
      open := false;
    }
  }
}
