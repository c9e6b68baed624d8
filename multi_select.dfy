/** The tag-list input: Enter adds the trimmed input unless it is already
    a tag, and each tag's button removes it. The tag list belongs to the
    caller (`values`/`onChange`); the input text is the component's own
    state. */
module MultiSelect {
  import opened JsValues
  import opened JsStrings
  import opened JsArrays

  /** The list `handleInputKeyDown` passes to `onChange` for a non-blank
      input, or the unchanged list when the trimmed input is already there
      (then `onChange` is not called). */
  function AddValue(values: seq<string>, input: string): seq<string>
  {
    if Trim(input) in values then values else values + [Trim(input)]
  }

  /** `values.filter((value) => value !== valueToRemove)`. */
  function RemoveValue(values: seq<string>, valueToRemove: string): seq<string>
  {
    Filter(values, (v: string) => v != valueToRemove)
  }

  predicate NoDuplicates(values: seq<string>)
  {
    forall i, j :: 0 <= i < j < |values| ==> values[i] != values[j]
  }

  /** Adding appends the trimmed input at the end exactly when it is new,
      keeps the list free of duplicates, and makes the trimmed input a tag. */
  lemma AddValueSpec(values: seq<string>, input: string)
    ensures Trim(input) in AddValue(values, input)
    ensures Trim(input) !in values ==> AddValue(values, input) == values + [Trim(input)]
    ensures Trim(input) in values ==> AddValue(values, input) == values
    ensures NoDuplicates(values) ==> NoDuplicates(AddValue(values, input))
  {
  }

  /** After removal no tag equals the removed value; the remaining tags keep
      their relative order; removing an absent value changes nothing. */
  lemma RemoveValueSpec(values: seq<string>, v: string, prefix: seq<string>, suffix: seq<string>)
    ensures v !in RemoveValue(values, v)
    ensures forall x :: x in values && x != v ==> x in RemoveValue(values, v)
    ensures values == prefix + suffix ==> RemoveValue(values, v) == RemoveValue(prefix, v) + RemoveValue(suffix, v)
    ensures v !in values ==> RemoveValue(values, v) == values
  {
    var p := (x: string) => x != v;
    if values == prefix + suffix {
      FilterConcat(prefix, suffix, p);
    }
    if v !in values {
      FilterAll(values, p);
    }
  }

  /** The component's own state: the text being typed. */
  class MultiSelectState {
    var inputValue: string

    constructor ()
      ensures inputValue == ""
    {
      inputValue := "";
    }

    /** `handleInputChange`. */
    method SetInput(text: string)
      modifies this
      ensures inputValue == text
    {
      inputValue := text;
    }

    /** `handleInputKeyDown`: `changed` is the list passed to `onChange`, if
        it is called. Enter with a non-blank input calls it only for a new
        tag but clears the input either way; any other key, or a blank
        input, does nothing. */
    method KeyDown(key: string, values: seq<string>) returns (changed: Option<seq<string>>)
      modifies this
      ensures key == "Enter" && Trim(old(inputValue)) != "" ==>
                && inputValue == ""
                && changed == if Trim(old(inputValue)) in values then None else Some(AddValue(values, old(inputValue)))
      ensures !(key == "Enter" && Trim(old(inputValue)) != "") ==> inputValue == old(inputValue) && changed == None
    {
      changed := None;
      if key == "Enter" && Trim(inputValue) != "" {
        if Trim(inputValue) !in values {
          changed := Some(values + [Trim(inputValue)]);
        }
        inputValue := "";
      }
    }
  }
}
