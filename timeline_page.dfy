/** The Andolan timeline page (frontend/src/pages/andolan-timeline-page/index.jsx):
    the category filter, the year toggle, the decade jump, the progress
    indicator and the clamped arrow-key navigation over the page's fixed
    milestone list. */
module TimelinePage {
  import opened Wrappers

  /** A milestone as the page uses it: its year and category. */
  datatype Milestone = Milestone(year: int, category: string)

  /** The page's milestones, oldest first. */
  const Timeline: seq<Milestone> := [
    Milestone(2003, "achievements"),
    Milestone(2005, "policy changes"),
    Milestone(2008, "achievements"),
    Milestone(2012, "programs"),
    Milestone(2015, "programs"),
    Milestone(2018, "programs"),
    Milestone(2020, "achievements"),
    Milestone(2022, "achievements"),
    Milestone(2024, "upcoming projects")]

  /** A decade button: its value and the years it lists. */
  datatype Decade = Decade(value: string, years: seq<int>)

  const Decades: seq<Decade> := [
    Decade("2000s", [2003, 2005, 2008]),
    Decade("2010s", [2012, 2015, 2018]),
    Decade("2020s", [2020, 2022, 2024])]

  // ---------------------------------------------------------------- filter

  /** The milestones shown for a category: all of them for 'all', otherwise
      those of that category, in their original order. */
  function FilterByCategory(items: seq<Milestone>, category: string): (r: seq<Milestone>)
    ensures |r| <= |items|
    ensures forall m :: m in r <==> m in items && (category == "all" || m.category == category)
  {
    if items == [] then []
    else
      var rest := FilterByCategory(items[1..], category);
      if category == "all" || items[0].category == category then [items[0]] + rest else rest
  }

  /** 'all' shows the list unchanged. */
  lemma {:induction false} AllKeepsEverything(items: seq<Milestone>)
    ensures FilterByCategory(items, "all") == items
  {
    if items != [] {
      AllKeepsEverything(items[1..]);
    }
  }

  /** Filtering keeps order: the filter of two runs is the filter of the first
      followed by the filter of the second. */
  lemma {:induction false} FilterAppend(a: seq<Milestone>, b: seq<Milestone>, category: string)
    ensures FilterByCategory(a + b, category) == FilterByCategory(a, category) + FilterByCategory(b, category)
  {
    if a != [] {
      assert (a + b)[1..] == a[1..] + b;
      FilterAppend(a[1..], b, category);
    } else {
      assert a + b == b;
    }
  }

  /** Filtering twice by the same category is filtering once. */
  lemma {:induction false} FilterIdempotent(items: seq<Milestone>, category: string)
    ensures FilterByCategory(FilterByCategory(items, category), category) == FilterByCategory(items, category)
  {
    if items != [] {
      FilterIdempotent(items[1..], category);
    }
  }

  // ------------------------------------------------------------ year toggle

  /** `handleYearSelect`: choosing the selected year clears the selection;
      any other year becomes the selection. */
  function SelectYear(selected: Option<int>, year: int): (r: Option<int>)
    ensures r == None <==> selected == Some(year)
    ensures r != None ==> r == Some(year)
  {
    if selected == Some(year) then None else Some(year)
  }

  /** Choosing the same year twice leaves nothing selected. */
  lemma SelectTwiceClears(selected: Option<int>, year: int)
    requires selected != Some(year)
    ensures SelectYear(SelectYear(selected, year), year) == None
  {
  }

  // --------------------------------------------------------------- lookups

  /** `findIndex` of the selected year: the first milestone of that year, or
      -1 when nothing is selected or no milestone has it. */
  function FindYear(items: seq<Milestone>, selected: Option<int>): (r: int)
    ensures -1 <= r < |items|
    ensures r >= 0 ==> selected.Some? && items[r].year == selected.value
    ensures r >= 0 ==> forall j :: 0 <= j < r ==> items[j].year != selected.value
    ensures r == -1 <==> selected.None? || forall j :: 0 <= j < |items| ==> items[j].year != selected.value
  {
    if selected.None? || items == [] then -1
    else if items[0].year == selected.value then 0
    else
      var k := FindYear(items[1..], selected);
      if k == -1 then -1 else k + 1
  }

  /** No year appears twice. */
  predicate DistinctYears(items: seq<Milestone>) {
    forall i, j :: 0 <= i < j < |items| ==> items[i].year != items[j].year
  }

  /** With distinct years, a milestone's year leads back to it. */
  lemma FindOwnYear(items: seq<Milestone>, i: int)
    requires DistinctYears(items) && 0 <= i < |items|
    ensures FindYear(items, Some(items[i].year)) == i
  {
  }

  // ------------------------------------------------------------- keyboard

  /** The arrow keys: one step back or on through the unfiltered list,
      clamped at its ends; nothing happens for other keys or when the
      selected year is not in the list. */
  function KeyDown(items: seq<Milestone>, selected: Option<int>, key: string): (r: Option<int>)
    ensures key != "ArrowLeft" && key != "ArrowRight" ==> r == selected
    ensures FindYear(items, selected) == -1 ==> r == selected
  {
    if key != "ArrowLeft" && key != "ArrowRight" then selected
    else
      var i := FindYear(items, selected);
      if i == -1 then selected
      else
        var j := if key == "ArrowLeft" then Max(0, i - 1) else Min(|items| - 1, i + 1);
        Some(items[j].year)
  }

  /** A key press that changes the selection selects a milestone's year. */
  lemma KeyDownLandsOnMilestone(items: seq<Milestone>, selected: Option<int>, key: string)
    ensures var r := KeyDown(items, selected, key);
      r != selected ==> exists j :: 0 <= j < |items| && r == Some(items[j].year)
  {
    var r := KeyDown(items, selected, key);
    if r != selected {
      var i := FindYear(items, selected);
      var j := if key == "ArrowLeft" then Max(0, i - 1) else Min(|items| - 1, i + 1);
      assert r == Some(items[j].year);
    }
  }

  function Max(a: int, b: int): int { if a < b then b else a }
  function Min(a: int, b: int): int { if a < b then a else b }

  /** From milestone `j` each arrow moves one place, clamped. */
  lemma ArrowStep(items: seq<Milestone>, j: int)
    requires DistinctYears(items) && 0 <= j < |items|
    ensures KeyDown(items, Some(items[j].year), "ArrowLeft") == Some(items[Max(0, j - 1)].year)
    ensures KeyDown(items, Some(items[j].year), "ArrowRight") == Some(items[Min(|items| - 1, j + 1)].year)
  {
    FindOwnYear(items, j);
  }

  /** `k` presses of the right arrow. */
  function RightPresses(items: seq<Milestone>, selected: Option<int>, k: nat): Option<int>
    decreases k
  {
    if k == 0 then selected else RightPresses(items, KeyDown(items, selected, "ArrowRight"), k - 1)
  }

  /** `k` presses of the left arrow. */
  function LeftPresses(items: seq<Milestone>, selected: Option<int>, k: nat): Option<int>
    decreases k
  {
    if k == 0 then selected else LeftPresses(items, KeyDown(items, selected, "ArrowLeft"), k - 1)
  }

  /** From milestone `i`, `k` presses of the right arrow reach milestone
      `i + k`, or stop at the last one. */
  lemma {:induction false} RightPressesClamp(items: seq<Milestone>, i: int, k: nat)
    requires DistinctYears(items) && 0 <= i < |items|
    ensures RightPresses(items, Some(items[i].year), k) == Some(items[Min(|items| - 1, i + k)].year)
    decreases k
  {
    if k > 0 {
      var next := Min(|items| - 1, i + 1);
      ArrowStep(items, i);
      RightPressesClamp(items, next, k - 1);
      assert Min(|items| - 1, next + (k - 1)) == Min(|items| - 1, i + k);
    }
  }

  /** From milestone `i`, `k` presses of the left arrow reach milestone
      `i - k`, or stop at the first one. */
  lemma {:induction false} LeftPressesClamp(items: seq<Milestone>, i: int, k: nat)
    requires DistinctYears(items) && 0 <= i < |items|
    ensures LeftPresses(items, Some(items[i].year), k) == Some(items[Max(0, i - k)].year)
    decreases k
  {
    if k > 0 {
      var prev := Max(0, i - 1);
      ArrowStep(items, i);
      LeftPressesClamp(items, prev, k - 1);
      assert Max(0, prev - (k - 1)) == Max(0, i - k);
    }
  }

  /** Away from the ends, left undoes right and right undoes left. */
  lemma ArrowsInverse(items: seq<Milestone>, i: int)
    requires DistinctYears(items) && 0 < i < |items| - 1
    ensures KeyDown(items, KeyDown(items, Some(items[i].year), "ArrowRight"), "ArrowLeft") == Some(items[i].year)
    ensures KeyDown(items, KeyDown(items, Some(items[i].year), "ArrowLeft"), "ArrowRight") == Some(items[i].year)
  {
    ArrowStep(items, i);
    ArrowStep(items, i + 1);
    ArrowStep(items, i - 1);
  }

  // ------------------------------------------------------------ decade jump

  /** The first decade button with the given value. */
  function FindDecade(decades: seq<Decade>, value: string): (r: Option<Decade>)
    ensures r.Some? ==> r.value in decades && r.value.value == value
    ensures r.None? <==> forall d :: d in decades ==> d.value != value
  {
    if decades == [] then None
    else if decades[0].value == value then Some(decades[0])
    else FindDecade(decades[1..], value)
  }

  /** `handleDecadeJump`: the decade is always recorded; the selected year
      becomes the decade's first listed year when the decade is found and
      that year is truthy (non-zero), and is otherwise kept. */
  function DecadeJump(decades: seq<Decade>, selected: Option<int>, value: string): (r: (string, Option<int>))
    ensures r.0 == value
    ensures r.1 != selected ==> exists d :: d in decades && d.value == value && d.years != [] && r.1 == Some(d.years[0])
    ensures FindDecade(decades, value).None? ==> r.1 == selected
    ensures (FindDecade(decades, value).Some? && FindDecade(decades, value).value.years != []
             && FindDecade(decades, value).value.years[0] != 0)
            ==> r.1 == Some(FindDecade(decades, value).value.years[0])
    ensures (FindDecade(decades, value).Some? && (FindDecade(decades, value).value.years == []
             || FindDecade(decades, value).value.years[0] == 0))
            ==> r.1 == selected
  {
    var first := match FindDecade(decades, value)
      case Some(d) => if d.years != [] then Some(d.years[0]) else None
      case None => None;
    if first.Some? && first.value != 0 then (value, first) else (value, selected)
  }

  // --------------------------------------------------------------- progress

  /** `getCurrentProgress`: 0 without a selection, otherwise the selected
      milestone's position as a percentage of the whole list. */
  function Progress(selected: Option<int>): (p: real)
    ensures 0.0 <= p <= 100.0
    ensures selected.None? || selected == Some(0) ==> p == 0.0
  {
    if selected.None? || selected.value == 0 then 0.0
    else
      var k := FindYear(Timeline, selected) + 1;
      FractionBounds(k);
      (k as real / |Timeline| as real) * 100.0
  }

  /** The share of `a` milestones in the page's list, as a percentage. */
  lemma FractionBounds(a: int)
    requires 0 <= a <= |Timeline|
    ensures 0.0 <= (a as real / |Timeline| as real) * 100.0 <= 100.0
    ensures a < |Timeline| ==> (a as real / |Timeline| as real) * 100.0 < 100.0
    ensures 0 < a ==> 0.0 < (a as real / |Timeline| as real) * 100.0
    ensures a == |Timeline| ==> (a as real / |Timeline| as real) * 100.0 == 100.0
  {
    assert |Timeline| as real == 9.0;
  }

  /** The page's years are distinct and none is 0. */
  lemma TimelineYears()
    ensures DistinctYears(Timeline)
    ensures forall i :: 0 <= i < |Timeline| ==> Timeline[i].year != 0
  {
  }

  /** The progress at milestone `i` is its 1-based position over the
      list's length, as a percentage. */
  lemma ProgressAt(i: int)
    requires 0 <= i < |Timeline|
    ensures Progress(Some(Timeline[i].year)) == ((i + 1) as real / |Timeline| as real) * 100.0
  {
    TimelineYears();
    FindOwnYear(Timeline, i);
  }

  /** Each decade button selects a year that is on the timeline, so the
      jump always moves the progress indicator off zero. */
  lemma DecadeJumpShowsProgress(selected: Option<int>, k: int)
    requires 0 <= k < |Decades|
    ensures var r := DecadeJump(Decades, selected, Decades[k].value);
      r.1 == Some(Decades[k].years[0]) && Progress(r.1) > 0.0
  {
    DecadeFound(k);
    ProgressAt(3 * k);
    FractionBounds(3 * k + 1);
  }

  /** Each decade button finds its own decade, whose first year is a
      milestone's. */
  lemma DecadeFound(k: int)
    requires 0 <= k < |Decades|
    ensures FindDecade(Decades, Decades[k].value) == Some(Decades[k])
    ensures Decades[k].years != [] && Decades[k].years[0] == Timeline[3 * k].year != 0
  {
    assert Decades[0].value[2] != Decades[1].value[2] && Decades[1].value[2] != Decades[2].value[2];
    assert Decades[0].value[2] != Decades[2].value[2];
  }

  /** Progress reaches 100 exactly at the last milestone. */
  lemma ProgressComplete(i: int)
    requires 0 <= i < |Timeline|
    ensures Progress(Some(Timeline[i].year)) == 100.0 <==> i == |Timeline| - 1
  {
    ProgressAt(i);
    FractionBounds(i + 1);
  }
}
