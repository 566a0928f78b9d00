/** The drop-down selector of one config component
    (frontend/src/components/ItemSelector.js): the display form of a dotted
    path, the routing of a selection and the open/closed state. */
module ItemSelector {
  import opened Strings
  import opened Json

  const CaretDot: string := "^."

  /** The value of the "create new" entry. */
  const CreateNew: string := "__create_new__"

  /** `k` copies of `s` one after the other. */
  function Repeat(s: string, k: nat): string
  {
    if k == 0 then [] else s + Repeat(s, k - 1)
  }

  /** `path.replace(/^(?:\^\.)+/, "")` on a string: every leading `^.`
      removed. */
  function StripCaretDots(s: string): (r: string)
    ensures !StartsWith(r, CaretDot)
    ensures |r| <= |s| && EndsWith(s, r)
    decreases |s|
  {
    if StartsWith(s, CaretDot) then
      var r := StripCaretDots(s[2..]);
      EndsWithDrop(s, 2, r);
      r
    else s
  }

  /** `stripCaretDotPrefixes(path)`: a non-string is returned as it is. */
  function StripCaretDotPrefixes(path: Json): (r: Json)
    ensures !path.Str? ==> r == path
    ensures path.Str? ==> r == Str(StripCaretDots(path.s))
  {
    if path.Str? then Str(StripCaretDots(path.s)) else path
  }

  /** How many leading `^.` the text has. */
  function LeadingCaretDots(s: string): nat
    decreases |s|
  {
    if StartsWith(s, CaretDot) then 1 + LeadingCaretDots(s[2..]) else 0
  }

  /** The stripped text follows exactly the leading `^.` of the input. */
  lemma {:induction false} StripCaretDotsSplits(s: string)
    ensures s == Repeat(CaretDot, LeadingCaretDots(s)) + StripCaretDots(s)
    decreases |s|
  {
    if StartsWith(s, CaretDot) {
      var k := LeadingCaretDots(s[2..]);
      StripCaretDotsSplits(s[2..]);
      assert s == CaretDot + s[2..];
      assert Repeat(CaretDot, k + 1) == CaretDot + Repeat(CaretDot, k);
    } else {
      assert s == [] + s;
    }
  }

  /** And it is the only such split: any `k` copies of `^.` followed by a
      text that does not start with `^.` strip down to that text. */
  lemma {:induction false} StripCaretDotsUnique(k: nat, rest: string)
    requires !StartsWith(rest, CaretDot)
    ensures StripCaretDots(Repeat(CaretDot, k) + rest) == rest
  {
    if k > 0 {
      var tail := Repeat(CaretDot, k - 1) + rest;
      assert Repeat(CaretDot, k) + rest == CaretDot + tail;
      StripCaretDotsUnique(k - 1, rest);
      StripOneCaretDot(tail);
    } else {
      assert Repeat(CaretDot, k) + rest == rest;
    }
  }

  lemma StripOneCaretDot(tail: string)
    ensures StripCaretDots(CaretDot + tail) == StripCaretDots(tail)
  {
    var s := CaretDot + tail;
    assert s[..|CaretDot|] == CaretDot;
    assert s[2..] == tail;
  }

  /** Stripping twice is stripping once; a text not starting with `^.` is
      left alone. */
  lemma StripCaretDotsIdempotent(s: string)
    ensures StripCaretDots(StripCaretDots(s)) == StripCaretDots(s)
    ensures !StartsWith(s, CaretDot) ==> StripCaretDots(s) == s
  {
  }

  /** `currentLabel`: the stripped value, or "" for a falsy value. */
  function CurrentLabel(value: Json): (r: Json)
    ensures !Truthy(value) ==> r == Str("")
    ensures value.Str? && value.s != [] ==> r == Str(StripCaretDots(value.s))
    ensures Truthy(value) && !value.Str? ==> r == value
  {
    if Truthy(value) then StripCaretDotPrefixes(value) else Str("")
  }

  /** What a selection makes the selector call. */
  datatype SelectEffect =
    | CallOnCreate                 // the create-new entry, `onCreate` a function
    | CallNothing                  // the create-new entry, no `onCreate`
    | CallOnChange(event: Json)    // any other value: `onChange({target: {name, value}})`
    | ThrowsNoOnChange             // any other value with no `onChange`: calling it throws

  /** The effect of `handleSelect(selectedValue)`. */
  function SelectEffectOf(selectedValue: Json, name: Json, hasOnCreate: bool, hasOnChange: bool): (r: SelectEffect)
    ensures selectedValue == Str(CreateNew) ==> r == CallOnCreate || r == CallNothing
    ensures selectedValue != Str(CreateNew) ==> !r.CallOnCreate? && !r.CallNothing?
    ensures r.CallOnChange? ==> Get(Get(r.event, "target"), "value") == selectedValue
                                && Get(Get(r.event, "target"), "name") == name
  {
    if selectedValue == Str(CreateNew) then
      (if hasOnCreate then CallOnCreate else CallNothing)
    else if hasOnChange then
      CallOnChange(Obj(map["target" := Obj(map["name" := name, "value" := selectedValue])]))
    else ThrowsNoOnChange
  }

  class Component {
    var open: bool
    /** The `onLinkClick(name, value)` calls made so far, oldest first. */
    var linkCalls: seq<(Json, Json)>

    constructor()
      ensures !open && linkCalls == []
    {
      open := false;
      linkCalls := [];
    }

    /** `handleSelect(selectedValue)`: every selection closes the list,
        then routes to `onCreate` or `onChange`. */
    method HandleSelect(selectedValue: Json, name: Json, hasOnCreate: bool, hasOnChange: bool)
      returns (effect: SelectEffect)
      modifies this
      ensures !open && linkCalls == old(linkCalls)
      ensures effect == SelectEffectOf(selectedValue, name, hasOnCreate, hasOnChange)
    {
      open := false;
      effect := SelectEffectOf(selectedValue, name, hasOnCreate, hasOnChange);
    }

    /** `handleArrowClick`: toggles the list unless disabled. */
    method HandleArrowClick(disabled: bool)
      modifies this
      ensures open == (if disabled then old(open) else !old(open))
      ensures linkCalls == old(linkCalls)
    {
      if !disabled {
        open := !open;
      }
    }

    /** `handleLinkClick`: calls `onLinkClick(name, value)` with the
        selector's name and current value when a link handler is given and
        the selector is enabled; the list is not opened. */
    method HandleLinkClick(name: Json, value: Json, disabled: bool, hasOnLinkClick: bool)
      modifies this
      ensures linkCalls == old(linkCalls) + (if hasOnLinkClick && !disabled then [(name, value)] else [])
      ensures open == old(open)
    {
      if hasOnLinkClick && !disabled {
        linkCalls := linkCalls + [(name, value)];
      }
    }
  }
}
