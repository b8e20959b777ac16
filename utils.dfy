/**
 * The frontend helpers of lib/utils.ts: the "D-day" label of an event date
 * and the colours of an event group, looked up in the group table of
 * lib/constants/calendar.ts.
 *
 * Instants are local milliseconds since 1970-01-01 (the clock `new Date()`
 * reads is the parameter `nowMs`); daylight-saving shifts are not modelled.
 */
module Utils {
  import opened Optional
  import opened Text
  import CyclePrediction

  /** An entry of `selectGroups`; `groupLabel` is its `label`. */
  datatype Group = Group(value: string, groupLabel: string, color: string, borderColor: string)

  const SelectGroups: seq<Group> := [
    Group("dates", "Dates", "text-pink-500", "border-pink-500/70"),
    Group("travel", "Travel", "text-purple-500", "border-purple-500/70"),
    Group("family", "Family", "text-lime-500", "border-lime-500/70"),
    Group("self", "Self", "text-blue-500", "border-blue-500/70"),
    Group("friends", "Friends", "text-yellow-500", "border-yellow-500/70"),
    Group("school", "School", "text-teal-500", "border-teal-500/70"),
    Group("work", "Work", "text-gray-500", "border-gray-500/70"),
    Group("important", "Important", "text-red-500", "border-red-500/70"),
    Group("others", "Others", "text-orange-500", "border-orange-500/70")
  ]

  /** `groups.find(g => g.value === value)`: the index of the first entry with that value. */
  function FindGroup(groups: seq<Group>, value: string): (r: Option<nat>)
    ensures r.Some? <==> exists k :: 0 <= k < |groups| && groups[k].value == value
    ensures r.Some? ==>
      (r.value < |groups| && groups[r.value].value == value && forall k :: 0 <= k < r.value ==> groups[k].value != value)
  {
    if |groups| == 0 then None
    else if groups[0].value == value then Some(0)
    else
      var rest := FindGroup(groups[1..], value);
      assert forall k :: 1 <= k < |groups| ==> groups[k] == groups[1..][k - 1];
      if rest.Some? then Some(rest.value + 1) else None
  }

  /** `getColorFromGroup`: "" for an empty or unknown group, otherwise the group's text colour. */
  function GetColorFromGroup(groupValue: string): (color: string)
  {
    if groupValue == "" then ""
    else
      match FindGroup(SelectGroups, groupValue)
      case Some(k) => SelectGroups[k].color
      case None => ""
  }

  /** `getBorderColorFromGroup`: the same lookup, giving the border colour. */
  function GetBorderColorFromGroup(groupValue: string): (color: string)
  {
    if groupValue == "" then ""
    else
      match FindGroup(SelectGroups, groupValue)
      case Some(k) => SelectGroups[k].borderColor
      case None => ""
  }

  /** The table is keyed by its values, and its colours tell the groups apart. */
  lemma SelectGroupsDistinct()
    ensures forall i, j :: 0 <= i < j < |SelectGroups| ==>
      SelectGroups[i].value != SelectGroups[j].value && SelectGroups[i].color != SelectGroups[j].color
  {
    forall i, j | 0 <= i < j < |SelectGroups|
      ensures SelectGroups[i].value != SelectGroups[j].value && SelectGroups[i].color != SelectGroups[j].color
    {
      ValuesDiffer(i, j);
      ColorsDiffer(i, j);
    }
  }

  /** Each value's length and first letter, and each text colour's length and first letter of its hue. */
  const ValueLengths := [5, 6, 6, 4, 7, 6, 4, 9, 6]
  const ValueInitials := "dtfsfswio"
  const ColorLengths := [13, 15, 13, 13, 15, 13, 13, 12, 15]
  const HueInitials := "pplbytgro"

  /** No two entries agree on both the length and the letter. */
  lemma ShapesDiffer(i: int, j: int)
    requires 0 <= i < j < 9
    ensures ValueLengths[i] != ValueLengths[j] || ValueInitials[i] != ValueInitials[j]
    ensures ColorLengths[i] != ColorLengths[j] || HueInitials[i] != HueInitials[j]
  {
  }

  lemma ValuesDiffer(i: int, j: int)
    requires 0 <= i < j < |SelectGroups|
    ensures SelectGroups[i].value != SelectGroups[j].value
  {
    ShapeAt(i);
    ShapeAt(j);
    ShapesDiffer(i, j);
  }

  lemma ColorsDiffer(i: int, j: int)
    requires 0 <= i < j < |SelectGroups|
    ensures SelectGroups[i].color != SelectGroups[j].color
  {
    ShapeAt(i);
    ShapeAt(j);
    ShapesDiffer(i, j);
  }

  lemma ShapeAt(k: int)
    requires 0 <= k < |SelectGroups|
    ensures |SelectGroups[k].value| == ValueLengths[k] && SelectGroups[k].value[0] == ValueInitials[k]
    ensures |SelectGroups[k].color| == ColorLengths[k] && SelectGroups[k].color[5] == HueInitials[k]
  {
  }

  /** The colours are those of the table's entry for the group, and "" exactly for an empty or unknown group. */
  lemma GroupColors(groupValue: string)
    ensures GetColorFromGroup(groupValue) == "" <==>
      groupValue == "" || forall k :: 0 <= k < |SelectGroups| ==> SelectGroups[k].value != groupValue
    ensures GetBorderColorFromGroup(groupValue) == "" <==>
      groupValue == "" || forall k :: 0 <= k < |SelectGroups| ==> SelectGroups[k].value != groupValue
    ensures forall k :: 0 <= k < |SelectGroups| && SelectGroups[k].value == groupValue ==>
      GetColorFromGroup(groupValue) == SelectGroups[k].color &&
      GetBorderColorFromGroup(groupValue) == SelectGroups[k].borderColor
  {
    SelectGroupsDistinct();
    assert forall k :: 0 <= k < |SelectGroups| ==> SelectGroups[k].value != "";
    assert forall k :: 0 <= k < |SelectGroups| ==> SelectGroups[k].color != "" && SelectGroups[k].borderColor != "";
  }

  /** A non-empty colour names one group. */
  lemma ColorIdentifiesGroup(a: string, b: string)
    requires GetColorFromGroup(a) == GetColorFromGroup(b) != ""
    ensures a == b
  {
    SelectGroupsDistinct();
  }

  /** The label of an event `n` days from today. */
  function DDayLabel(n: int): string
  {
    if n == 0 then "Today" else if n > 0 then "D-" + NatToString(n) else "D+" + NatToString(-n)
  }

  /** Different day counts have different labels. */
  lemma DDayLabelInjective(a: int, b: int)
    requires DDayLabel(a) == DDayLabel(b)
    ensures a == b
  {
    var l := DDayLabel(a);
    assert l[0] == 'T' <==> a == 0;
    assert l[0] == 'T' <==> b == 0;
    if a != 0 && b != 0 {
      assert l[1] == (if a > 0 then '-' else '+') == (if b > 0 then '-' else '+');
      assert l[2..] == NatToString(if a > 0 then a else -a) == NatToString(if b > 0 then b else -b);
    }
  }

  /**
   * `calculateDDay`: both instants are moved to their local midnight, the
   * difference is counted in whole days, and shown as "Today", "D-n" for an
   * event n days ahead or "D+n" for one n days past.
   */
  function CalculateDDay(targetMs: int, nowMs: int): (s: string)
    ensures s == DDayLabel(CyclePrediction.Today(targetMs) - CyclePrediction.Today(nowMs))
  {
    var diffDays := DiffDays(targetMs, nowMs);
    if diffDays == 0 then "Today"
    else if diffDays > 0 then "D-" + IntToString(diffDays)
    else "D+" + IntToString(if diffDays < 0 then -diffDays else diffDays)
  }

  /** `Math.floor((target - today) / day)` for the two midnights: the number of days between them. */
  function DiffDays(targetMs: int, nowMs: int): (d: int)
    ensures d == CyclePrediction.Today(targetMs) - CyclePrediction.Today(nowMs)
  {
    var today := CyclePrediction.Today(nowMs) * CyclePrediction.DayMs;
    var target := CyclePrediction.Today(targetMs) * CyclePrediction.DayMs;
    CyclePrediction.WholeDays(CyclePrediction.Today(targetMs), CyclePrediction.Today(nowMs));
    (target - today) / CyclePrediction.DayMs
  }

  /** The label names the day: two instants get the same label exactly when they fall on the same day. */
  lemma SameLabelSameDay(t1: int, t2: int, nowMs: int)
    ensures CalculateDDay(t1, nowMs) == CalculateDDay(t2, nowMs) <==>
      CyclePrediction.Today(t1) == CyclePrediction.Today(t2)
  {
    var d1 := CyclePrediction.Today(t1) - CyclePrediction.Today(nowMs);
    var d2 := CyclePrediction.Today(t2) - CyclePrediction.Today(nowMs);
    assert CalculateDDay(t1, nowMs) == DDayLabel(d1) && CalculateDDay(t2, nowMs) == DDayLabel(d2);
    if DDayLabel(d1) == DDayLabel(d2) {
      DDayLabelInjective(d1, d2);
    }
  }
}
