/**
 * The filter-bar search of the value-help dialogs: the selection set is
 * reduced to a list of filters, one per control with a value. The date
 * control becomes a between-filter on the first and last ten characters of
 * its range text; every other control becomes a contains-filter.
 */
module Filters {

  /** A filter-bar control: its field name and its current value. */
  datatype Control = Control(name: string, value: string)

  /** sap.ui.model.Filter with operator BT or Contains. */
  datatype Filter = Between(path: string, value1: string, value2: string) | Contains(path: string, value1: string)

  /** The outcome of a search: filter the table by all filters (and), or report that no parameter was given. */
  datatype Search = ApplyAll(filters: seq<Filter>) | NoParameter

  /** The date field of the goods-receipt selection dialog. */
  const GrDateField: string := "DocDate"
  /** The date field of the purchase-order selection dialog. */
  const PoDateField: string := "CreatDate"

  /** `s.substring(0, 10)`: JavaScript clamps the end to the length. */
  function FirstTen(s: string): (r: string)
    ensures |s| >= 10 ==> r == s[..10]
    ensures |s| < 10 ==> r == s
  {
    if |s| >= 10 then s[..10] else s
  }

  /** `s.substring(s.length - 10)`: a negative start is clamped to 0. */
  function LastTen(s: string): (r: string)
    ensures |s| >= 10 ==> r == s[|s| - 10..]
    ensures |s| < 10 ==> r == s
  {
    if |s| >= 10 then s[|s| - 10..] else s
  }

  /** What one control contributes to the reduce. */
  function FilterOf(c: Control, dateField: string): seq<Filter>
  {
    if c.value == "" then []
    else if c.name == dateField then [Between(dateField, FirstTen(c.value), LastTen(c.value))]
    else [Contains(c.name, c.value)]
  }

  /** `_buildFilters` (and the reduce in `onPoFilterBarSearch`): a left fold pushing each control's filter. */
  function BuildFilters(controls: seq<Control>, dateField: string): seq<Filter>
  {
    if controls == [] then []
    else BuildFilters(controls[..|controls| - 1], dateField) + FilterOf(controls[|controls| - 1], dateField)
  }

  function CountWithValue(controls: seq<Control>): nat
  {
    if controls == [] then 0
    else CountWithValue(controls[..|controls| - 1]) + (if controls[|controls| - 1].value != "" then 1 else 0)
  }

  /** The fold distributes over concatenation, so filters come out in the order of their controls. */
  lemma {:induction false} BuildFiltersAppend(a: seq<Control>, b: seq<Control>, dateField: string)
    ensures BuildFilters(a + b, dateField) == BuildFilters(a, dateField) + BuildFilters(b, dateField)
    decreases |b|
  {
    if b == [] {
      assert a + b == a;
    } else {
      var b' := b[..|b| - 1];
      assert (a + b)[..|a + b| - 1] == a + b';
      assert (a + b)[|a + b| - 1] == b[|b| - 1];
      BuildFiltersAppend(a, b', dateField);
    }
  }

  /** Exactly one filter per control with a non-empty value. */
  lemma {:induction false} BuildFiltersCount(controls: seq<Control>, dateField: string)
    ensures |BuildFilters(controls, dateField)| == CountWithValue(controls)
  {
    if controls != [] {
      BuildFiltersCount(controls[..|controls| - 1], dateField);
    }
  }

  /** Every filter comes from some control with a value: BT on the date field, Contains on any other. */
  lemma {:induction false} BuildFiltersShape(controls: seq<Control>, dateField: string, f: Filter)
    requires f in BuildFilters(controls, dateField)
    ensures exists c :: c in controls && c.value != "" && FilterOf(c, dateField) == [f]
  {
    var init := controls[..|controls| - 1];
    var last := controls[|controls| - 1];
    if f in BuildFilters(init, dateField) {
      BuildFiltersShape(init, dateField, f);
      var c :| c in init && c.value != "" && FilterOf(c, dateField) == [f];
      assert c in controls;
    } else {
      assert f in FilterOf(last, dateField);
      assert last in controls;
    }
  }

  /** A date range "dd.MM.yyyy - dd.MM.yyyy" splits into its two dates. */
  lemma DateRangeSplit(from: string, sep: string, to: string, dateField: string)
    requires |from| == 10 && |to| == 10
    ensures FilterOf(Control(dateField, from + sep + to), dateField) == [Between(dateField, from, to)]
  {
    var v := from + sep + to;
    assert v[..10] == from;
    assert v[|v| - 10..] == to;
  }

  /** The search of both selection dialogs: filter when there is at least one filter, otherwise the error branch. */
  function SearchFor(controls: seq<Control>, dateField: string): (r: Search)
    ensures r == NoParameter <==> forall k :: 0 <= k < |controls| ==> controls[k].value == ""
    ensures r.ApplyAll? ==> r.filters == BuildFilters(controls, dateField) && |r.filters| > 0
  {
    var filters := BuildFilters(controls, dateField);
    NoFiltersIffNoValues(controls, dateField);
    if |filters| > 0 then ApplyAll(filters) else NoParameter
  }

  /** No control has a value exactly when none is counted. */
  lemma {:induction false} NoValuesIffZeroCount(controls: seq<Control>)
    ensures CountWithValue(controls) == 0 <==> forall k :: 0 <= k < |controls| ==> controls[k].value == ""
  {
    if controls != [] {
      var init := controls[..|controls| - 1];
      NoValuesIffZeroCount(init);
      assert forall k :: 0 <= k < |init| ==> init[k] == controls[k];
    }
  }

  /** The search reports "no parameter" exactly when every control is empty. */
  lemma NoFiltersIffNoValues(controls: seq<Control>, dateField: string)
    ensures BuildFilters(controls, dateField) == [] <==> forall k :: 0 <= k < |controls| ==> controls[k].value == ""
  {
    BuildFiltersCount(controls, dateField);
    NoValuesIffZeroCount(controls);
  }
}
