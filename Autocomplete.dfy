/** The decision logic of the address autocomplete widget: when a typed
    address is long enough to look up, when a debounced look-up is skipped
    as a repeat, and how the arrow keys and Enter move through the
    suggestion list. */
module Autocomplete {
  import opened Wrappers
  import opened Seqs
  import opened Strings

  /** A trimmed address shorter than this clears the suggestions instead of being looked up. */
  const MinQueryLength := 3

  datatype InputAction = ClearSuggestions | ScheduleLookup(query: string)

  /** The `input` handler: the trimmed value is looked up unless it is shorter than three characters. */
  function OnAddressInput(value: string): (a: InputAction)
    ensures a.ClearSuggestions? <==> |Trim(value)| < MinQueryLength
    ensures a.ScheduleLookup? ==> a.query == Trim(value) && |a.query| >= MinQueryLength
  {
    var q := Trim(value);
    if q == [] || |q| < MinQueryLength then ClearSuggestions else ScheduleLookup(q)
  }

  datatype TimerOutcome = TimerOutcome(lookup: bool, lastQuery: string)

  /** The debounce timer firing for `q`: a query equal to the last one
      looked up is dropped, any other is looked up and remembered. */
  function OnTimerFired(q: string, lastQuery: string): (r: TimerOutcome)
    ensures r.lookup <==> q != lastQuery
    ensures r.lastQuery == q
  {
    if q == lastQuery then TimerOutcome(false, lastQuery) else TimerOutcome(true, q)
  }

  /** A query is looked up at most once in a row. */
  lemma RepeatedQueryLookedUpOnce(q: string, lastQuery: string)
    ensures !OnTimerFired(q, OnTimerFired(q, lastQuery).lastQuery).lookup
  {
  }

  datatype Key = ArrowDown | ArrowUp | Enter | OtherKey

  /** The suggestion list as the keyboard handler sees it: whether it is
      shown, how many items it holds, and which item (if any) is active. */
  datatype Suggestions = Suggestions(visible: bool, count: nat, active: Option<nat>)

  predicate WellFormed(s: Suggestions) {
    s.active.Some? ==> s.active.value < s.count
  }

  /** `items.indexOf(active)`, `-1` when no item is active. */
  function ActiveIndex(s: Suggestions): int {
    if s.active.Some? then s.active.value else -1
  }

  /** `setActiveItem`: the item at `idx` becomes the only active one; an index outside the list leaves none active. */
  function SetActiveItem(s: Suggestions, idx: int): (r: Suggestions)
    ensures r.visible == s.visible && r.count == s.count && WellFormed(r)
    ensures r.active.Some? <==> 0 <= idx < s.count
    ensures r.active.Some? ==> r.active.value == idx
  {
    s.(active := if 0 <= idx < s.count then Some(idx as nat) else None)
  }

  datatype KeyResult = KeyResult(list: Suggestions, chosen: Option<nat>)

  /** The `keydown` handler on the address field. Enter on an active item
      clicks it, which picks that suggestion and hides the list. */
  function OnKeyDown(s: Suggestions, key: Key): (r: KeyResult)
    requires WellFormed(s)
    ensures WellFormed(r.list) && r.list.count == s.count
    ensures !s.visible ==> r == KeyResult(s, None)
    ensures s.visible && key == ArrowDown && s.count > 0 ==>
      r.list.active == Some(if s.active.None? then 0 else Min(s.count - 1, s.active.value + 1))
    ensures s.visible && key == ArrowUp && s.count > 0 ==>
      r.list.active == Some(if s.active.None? then 0 else Max(0, s.active.value - 1))
    ensures (key == ArrowDown || key == ArrowUp) && s.count == 0 ==> r.list.active.None?
    ensures r.chosen.Some? <==> s.visible && key == Enter && s.active.Some?
    ensures r.chosen.Some? ==> r.chosen == s.active && r.list == s.(visible := false)
    ensures key != Enter ==> r.list.visible == s.visible && r.chosen.None?
    ensures key == Enter && s.active.None? ==> r == KeyResult(s, None)
    ensures key == OtherKey ==> r == KeyResult(s, None)
  {
    if !s.visible then KeyResult(s, None)
    else
      var idx := ActiveIndex(s);
      match key
      case ArrowDown => KeyResult(SetActiveItem(s, Min(s.count - 1, idx + 1)), None)
      case ArrowUp => KeyResult(SetActiveItem(s, Max(0, idx - 1)), None)
      case Enter =>
        if idx >= 0 && idx < s.count then KeyResult(s.(visible := false), Some(idx as nat))
        else KeyResult(s, None)
      case OtherKey => KeyResult(s, None)
  }

  /** The list after pressing `key` `n` times. */
  function Press(s: Suggestions, key: Key, n: nat): (r: Suggestions)
    requires WellFormed(s)
    ensures WellFormed(r) && r.count == s.count
  {
    if n == 0 then s else OnKeyDown(Press(s, key, n - 1), key).list
  }

  /** Pressing ArrowDown `n` times from no active item reaches item `n - 1`, and stops at the last item. */
  lemma {:induction false} ArrowDownWalks(s: Suggestions, n: nat)
    requires WellFormed(s) && s.visible && s.active.None? && s.count > 0 && n > 0
    ensures Press(s, ArrowDown, n).active == Some(Min(n, s.count) - 1)
    ensures Press(s, ArrowDown, n).visible
  {
    var p := Press(s, ArrowDown, n - 1);
    assert Press(s, ArrowDown, n) == OnKeyDown(p, ArrowDown).list;
    if n > 1 {
      ArrowDownWalks(s, n - 1);
      assert p.active == Some(Min(n - 1, s.count) - 1);
    }
  }

  /** ArrowUp undoes an ArrowDown that moved the active item. */
  lemma DownThenUp(s: Suggestions, k: nat)
    requires s.visible && s.active == Some(k) && k + 1 < s.count
    ensures OnKeyDown(OnKeyDown(s, ArrowDown).list, ArrowUp).list == s
  {
  }
}
