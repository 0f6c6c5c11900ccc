/**
 * The `<year-selector>` custom element of
 * src/js/_components/year-selector.js: a year with back and next buttons
 * and a drop-down of every year from `max` down to `min`. The element's
 * fields are the fields of the class below; the attributes, the slot
 * text, the buttons' `disabled` state and the `<select>` are fields too.
 * The clock is a parameter of every operation that reads it.
 */
module YearSelector {
  import opened Wrappers

  /** The years `updateSelect` offers: `max`, `max - 1`, ..., `min`. */
  function Years(max: int, min: int): (ys: seq<int>)
    ensures |ys| == if max >= min then max - min + 1 else 0
    decreases max - min
  {
    if max < min then [] else [max] + Years(max - 1, min)
  }

  /** The `k`-th option is `max - k`, and the options are exactly the years from `min` to `max`. */
  lemma {:induction false} YearsShape(max: int, min: int)
    ensures forall k :: 0 <= k < |Years(max, min)| ==> Years(max, min)[k] == max - k
    ensures forall y :: y in Years(max, min) <==> min <= y <= max
    decreases max - min
  {
    if max >= min {
      YearsShape(max - 1, min);
      var ys := Years(max, min);
      assert ys == [max] + Years(max - 1, min);
      forall y ensures y in ys <==> min <= y <= max {
        assert y in ys <==> y == max || y in Years(max - 1, min);
      }
    }
  }

  /** The options strictly descend: no year is offered twice. */
  lemma YearsDescending(max: int, min: int)
    ensures forall j, k :: 0 <= j < k < |Years(max, min)| ==> Years(max, min)[j] > Years(max, min)[k]
  {
    YearsShape(max, min);
  }

  /** The loop appends at the low end: the years down to `min` are the years down to `min + 1`, then `min`. */
  lemma {:induction false} YearsSnoc(max: int, min: int)
    requires max >= min
    ensures Years(max, min) == Years(max, min + 1) + [min]
    decreases max - min
  {
    if max > min {
      YearsSnoc(max - 1, min);
    }
  }

  /** The attributes the element observes. */
  datatype Attribute = Min | Max | Value

  /** How close, in milliseconds, an attribute change may follow `update()` and still be ignored. */
  const Debounce := 10

  class YearSelector {
    var min: int
    var max: int
    var value: int
    var debounceDate: int
    /** The `min`, `max` and `value` attributes, as numbers. */
    var attrMin: int
    var attrMax: int
    var attrValue: int
    /** The text of the `<slot>`. */
    var slotText: int
    var nextDisabled: bool
    var backDisabled: bool
    /** The values of the `<option>`s, in order, and the selected one if any matches. */
    var options: seq<int>
    var selected: Option<int>
    /** The `change` events dispatched so far. */
    var changeEvents: nat

    /** What is shown matches the fields. */
    ghost predicate Displayed()
      reads this
    {
      && slotText == value
      && (nextDisabled <==> max == value)
      && (backDisabled <==> min == value)
      && options == Years(max, min)
      && selected == (if value in options then Some(value) else None)
    }

    /** The attributes match the fields. */
    ghost predicate Reflected()
      reads this
    {
      attrMin == min && attrMax == max && attrValue == value
    }

    /** The constructor: read the three attributes, then `update()`. */
    constructor (minAttribute: int, maxAttribute: int, valueAttribute: int, now: int)
      ensures min == minAttribute && max == maxAttribute && value == valueAttribute
      ensures Displayed() && Reflected()
      ensures debounceDate == now && changeEvents == 1
    {
      min := minAttribute;
      max := maxAttribute;
      value := valueAttribute;
      attrMin := minAttribute;
      attrMax := maxAttribute;
      attrValue := valueAttribute;
      debounceDate := 1;
      slotText := 0;
      nextDisabled := false;
      backDisabled := false;
      options := [];
      selected := None;
      changeEvents := 0;
      new;
      Update(now);
    }

    /**
     * `attributeChangedCallback(name)`: the browser has stored the new
     * value; within 10 ms of the last `update()` the call does nothing
     * more, otherwise the field takes the value and `update()` runs.
     */
    method AttributeChanged(name: Attribute, newValue: int, now: int)
      modifies this
      ensures name == Min ==> attrMin == newValue
      ensures name == Max ==> attrMax == newValue
      ensures name == Value ==> attrValue == newValue
      ensures now - old(debounceDate) < Debounce ==>
        && min == old(min) && max == old(max) && value == old(value)
        && slotText == old(slotText) && nextDisabled == old(nextDisabled) && backDisabled == old(backDisabled)
        && options == old(options) && selected == old(selected)
        && debounceDate == old(debounceDate) && changeEvents == old(changeEvents)
        && (name != Min ==> attrMin == old(attrMin))
        && (name != Max ==> attrMax == old(attrMax))
        && (name != Value ==> attrValue == old(attrValue))
      ensures now - old(debounceDate) >= Debounce ==>
        && min == (if name == Min then newValue else old(min))
        && max == (if name == Max then newValue else old(max))
        && value == (if name == Value then newValue else old(value))
        && Displayed() && Reflected()
        && debounceDate == now && changeEvents == old(changeEvents) + 1
    {
      match name {
        case Min => attrMin := newValue;
        case Max => attrMax := newValue;
        case Value => attrValue := newValue;
      }
      if now - debounceDate < Debounce {
        return;
      }
      match name {
        case Min => min := newValue;
        case Max => max := newValue;
        case Value => value := newValue;
      }
      Update(now);
    }

    /** `update()`: refresh the buttons and options, stamp the clock, write the attributes and slot, dispatch `change`. */
    method Update(now: int)
      modifies this
      ensures min == old(min) && max == old(max) && value == old(value)
      ensures Displayed() && Reflected()
      ensures debounceDate == now && changeEvents == old(changeEvents) + 1
    {
      CheckDisabled();
      debounceDate := now;
      attrMin := min;
      attrMax := max;
      attrValue := value;
      slotText := value;
      changeEvents := changeEvents + 1;
    }

    /** `next()`: one year on, with no upper bound. */
    method Next(now: int)
      modifies this
      ensures value == old(value) + 1 && min == old(min) && max == old(max)
      ensures Displayed() && Reflected()
      ensures debounceDate == now && changeEvents == old(changeEvents) + 1
    {
      value := value + 1;
      Update(now);
    }

    /** `back()`: one year back, with no lower bound. */
    method Back(now: int)
      modifies this
      ensures value == old(value) - 1 && min == old(min) && max == old(max)
      ensures Displayed() && Reflected()
      ensures debounceDate == now && changeEvents == old(changeEvents) + 1
    {
      value := value - 1;
      Update(now);
    }

    /** `checkDisabled()`: next is disabled exactly at `max`, back exactly at `min`; then `updateSelect()`. */
    method CheckDisabled()
      modifies this
      ensures nextDisabled <==> max == value
      ensures backDisabled <==> min == value
      ensures options == Years(max, min)
      ensures selected == (if value in options then Some(value) else None)
      ensures min == old(min) && max == old(max) && value == old(value)
      ensures debounceDate == old(debounceDate) && changeEvents == old(changeEvents)
      ensures attrMin == old(attrMin) && attrMax == old(attrMax) && attrValue == old(attrValue)
      ensures slotText == old(slotText)
    {
      nextDisabled := max == value;
      backDisabled := min == value;
      UpdateSelect();
    }

    /** `updateSelect()`: one option per year from `max` down to `min`, then select `value`. */
    method UpdateSelect()
      modifies this
      ensures options == Years(max, min)
      ensures selected == (if value in options then Some(value) else None)
      ensures min == old(min) && max == old(max) && value == old(value)
      ensures nextDisabled == old(nextDisabled) && backDisabled == old(backDisabled)
      ensures debounceDate == old(debounceDate) && changeEvents == old(changeEvents)
      ensures attrMin == old(attrMin) && attrMax == old(attrMax) && attrValue == old(attrValue)
      ensures slotText == old(slotText)
    {
      options := [];
      var i := max;
      while i >= min
        invariant i <= max && (i >= min - 1 || i == max)
        invariant options == Years(max, i + 1)
        invariant min == old(min) && max == old(max) && value == old(value)
        invariant nextDisabled == old(nextDisabled) && backDisabled == old(backDisabled)
        invariant debounceDate == old(debounceDate) && changeEvents == old(changeEvents)
        invariant attrMin == old(attrMin) && attrMax == old(attrMax) && attrValue == old(attrValue)
        invariant slotText == old(slotText)
        decreases i - min + 1
      {
        YearsSnoc(max, i);
        options := options + [i];
        i := i - 1;
      }
      selected := if value in options then Some(value) else None;
    }

    /** `selectChanged()`: the year of the option the user picked becomes the value. */
    method SelectChanged(k: nat, now: int)
      requires Displayed() && k < |options|
      modifies this
      ensures value == old(options)[k] && min == old(min) && max == old(max)
      ensures min <= value <= max
      ensures Displayed() && Reflected()
      ensures debounceDate == now && changeEvents == old(changeEvents) + 1
    {
      YearsShape(max, min);
      value := options[k];
      Update(now);
    }

    /** A value within the years offered is always selected in the drop-down. */
    lemma SelectedWithinRange()
      requires Displayed() && min <= value <= max
      ensures selected == Some(value)
    {
      YearsShape(max, min);
    }
  }
}
