/** The information-center page
    (frontend/src/pages/information-center-page/index.jsx): flattening the
    grouped response, the search/category/region filter, the sort modes,
    bookmarks, and the per-section lists. */
module InformationCenter {
  import opened Wrappers
  import Text
  import Listing

  /** One information item as the page reads it; `groupTitle` is the tag the
      flattening adds. */
  datatype Item = Item(
    id: string,
    title: string,
    description: string,
    category: Option<string>,
    region: Option<string>,
    engagementMetric: int,
    date: string,
    groupTitle: Option<string>)

  /** A group of the response: its title and its (possibly missing) items. */
  datatype Group = Group(groupTitle: Option<string>, items: Option<seq<Item>>)

  /** The page's four sections: heading and the group they list. */
  datatype Section = Section(title: string, group: string)

  const Sections: seq<Section> := [
    Section("Government Schemes", "governmentSchemes"),
    Section("Agricultural Resources", "agriculturalResources"),
    Section("Educational Materials", "educationalMaterials"),
    Section("News & Updates", "newsUpdates")]

  // ------------------------------------------------------------ flattening

  /** The items of a group, each tagged with the group's title. */
  function Tagged(g: Group): (r: seq<Item>)
    ensures g.items.None? ==> r == []
    ensures g.items.Some? ==> |r| == |g.items.value|
    ensures g.items.Some? ==> forall j :: 0 <= j < |r| ==> r[j] == g.items.value[j].(groupTitle := g.groupTitle)
  {
    var items := g.items.GetOr([]);
    seq(|items|, j requires 0 <= j < |items| => items[j].(groupTitle := g.groupTitle))
  }

  function Size(g: Group): nat {
    if g.items.Some? then |g.items.value| else 0
  }

  function TotalSize(groups: seq<Group>): nat {
    if groups == [] then 0 else TotalSize(groups[..|groups| - 1]) + Size(groups[|groups| - 1])
  }

  /** The flat list: every group's tagged items, group by group. */
  function Flattened(groups: seq<Group>): (r: seq<Item>)
    ensures |r| == TotalSize(groups)
  {
    if groups == [] then [] else Flattened(groups[..|groups| - 1]) + Tagged(groups[|groups| - 1])
  }

  /** An item is in the flat list exactly when it is a tagged copy of an
      item of some group. */
  lemma {:induction false} FlattenedMembers(groups: seq<Group>, x: Item)
    ensures x in Flattened(groups) <==>
              exists i, j :: 0 <= i < |groups| && groups[i].items.Some? && 0 <= j < |groups[i].items.value|
                             && x == groups[i].items.value[j].(groupTitle := groups[i].groupTitle)
  {
    if groups != [] {
      var front, last := groups[..|groups| - 1], groups[|groups| - 1];
      FlattenedMembers(front, x);
      assert forall i :: 0 <= i < |front| ==> front[i] == groups[i];
      if x in Flattened(groups) && x !in Flattened(front) {
        var j :| 0 <= j < |Tagged(last)| && Tagged(last)[j] == x;
        assert last == groups[|groups| - 1];
      }
    }
  }

  /** `fetchInformation`: the groups of the response (none when it has no
      `data`), flattened with `forEach` and `push`. */
  method FlattenGroups(response: Option<seq<Group>>) returns (flat: seq<Item>)
    ensures flat == Flattened(response.GetOr([]))
  {
    var groups := response.GetOr([]);
    flat := [];
    var i := 0;
    while i < |groups|
      invariant 0 <= i <= |groups|
      invariant flat == Flattened(groups[..i])
    {
      assert groups[..i + 1][..i] == groups[..i];
      flat := flat + Tagged(groups[i]);
      i := i + 1;
    }
    assert groups[..i] == groups;
  }

  // ------------------------------------------------------------- filtering

  /** The three tests of `filterContent`. A kept item is in the chosen
      category and in the chosen region or in every region, and the reset
      settings keep every item. */
  predicate Keep(item: Item, query: string, category: string, region: string): (r: bool)
    ensures r ==> category == "all" || item.category == Some(category)
    ensures r ==> region == "all" || item.region == Some(region) || item.region == Some("all")
    ensures query == [] && category == "all" && region == "all" ==> r
  {
    && (category == "all" || item.category == Some(category))
    && (region == "all" || item.region == Some(region) || item.region == Some("all"))
    && (query == [] || Text.Contains(Text.Lower(item.title), Text.Lower(query))
                    || Text.Contains(Text.Lower(item.description), Text.Lower(query)))
  }

  /** The search ignores the case of the query: a query and its lower-cased
      form keep the same items. */
  lemma KeepIgnoresQueryCase(item: Item, query: string, category: string, region: string)
    ensures Keep(item, Text.Lower(query), category, region) == Keep(item, query, category, region)
  {
    Text.LowerIdempotent(query);
  }

  /** `filterContent`: the kept items, in their order. */
  function Filter(content: seq<Item>, query: string, category: string, region: string): (r: seq<Item>)
    ensures |r| <= |content|
    ensures forall x :: x in r <==> x in content && Keep(x, query, category, region)
  {
    if content == [] then []
    else (if Keep(content[0], query, category, region) then [content[0]] else [])
         + Filter(content[1..], query, category, region)
  }

  /** `a` is `b` with some elements left out, the rest in order. */
  predicate Subsequence<T(==)>(a: seq<T>, b: seq<T>)
    decreases |b|
  {
    a == [] || (b != [] && ((a[0] == b[0] && Subsequence(a[1..], b[1..])) || Subsequence(a, b[1..])))
  }

  /** Filtering keeps the relative order of the items it keeps. */
  lemma {:induction false} FilterIsSubsequence(content: seq<Item>, query: string, category: string, region: string)
    ensures Subsequence(Filter(content, query, category, region), content)
  {
    if content != [] {
      FilterIsSubsequence(content[1..], query, category, region);
      var rest := Filter(content[1..], query, category, region);
      var r := Filter(content, query, category, region);
      if Keep(content[0], query, category, region) {
        assert r == [content[0]] + rest;
        assert r[0] == content[0] && r[1..] == rest;
      } else {
        assert r == rest;
        assert r == [] || Subsequence(r, content[1..]);
      }
    }
  }

  /** A list whose every item passes the filter comes back unchanged. */
  lemma {:induction false} FilterKeepsAllKept(content: seq<Item>, query: string, category: string, region: string)
    requires forall x :: x in content ==> Keep(x, query, category, region)
    ensures Filter(content, query, category, region) == content
  {
    if content != [] {
      FilterKeepsAllKept(content[1..], query, category, region);
      assert [content[0]] + content[1..] == content;
    }
  }

  /** With the filters reset (empty query, 'all', 'all') every item is kept. */
  lemma ResetFiltersKeepAll(content: seq<Item>)
    ensures Filter(content, "", "all", "all") == content
  {
    FilterKeepsAllKept(content, "", "all", "all");
  }

  /** Filtering twice with the same settings is filtering once. */
  lemma FilterIdempotent(content: seq<Item>, query: string, category: string, region: string)
    ensures Filter(Filter(content, query, category, region), query, category, region) == Filter(content, query, category, region)
  {
    FilterKeepsAllKept(Filter(content, query, category, region), query, category, region);
  }

  // --------------------------------------------------------------- sorting

  function Engagement(x: Item): int { x.engagementMetric }

  /** `sortContent`: 'engagement' and 'date' return a sorted copy, highest
      first; any other mode returns the list unchanged. `dateOf` is the instant `new Date(item.date)` reads. */
  function SortContent(content: seq<Item>, sortBy: string, dateOf: Item -> int): (r: seq<Item>)
    ensures multiset(r) == multiset(content) && |r| == |content|
    ensures sortBy == "engagement" ==> Listing.SortedDesc(r, Engagement)
    ensures sortBy == "date" ==> Listing.SortedDesc(r, dateOf)
    ensures sortBy != "engagement" && sortBy != "date" ==> r == content
  {
    if sortBy == "date" then Listing.SortDesc(content, dateOf)
    else if sortBy == "engagement" then Listing.SortDesc(content, Engagement)
    else content
  }

  // ------------------------------------------------------------- bookmarks

  /** The list without any occurrence of `id`. */
  function Without(ids: seq<string>, id: string): (r: seq<string>)
    ensures forall x :: x in r <==> x in ids && x != id
    ensures id !in ids ==> r == ids
  {
    if ids == [] then []
    else (if ids[0] == id then [] else [ids[0]]) + Without(ids[1..], id)
  }

  /** `toggleBookmark`: remove every occurrence when present, else append. */
  function ToggleBookmark(bookmarks: seq<string>, id: string): (r: seq<string>)
    ensures id in r <==> id !in bookmarks
    ensures forall x :: x != id ==> (x in r <==> x in bookmarks)
    ensures id !in bookmarks ==> r == bookmarks + [id]
  {
    if id in bookmarks then Without(bookmarks, id) else bookmarks + [id]
  }

  /** Toggling twice restores membership, and restores the list itself when
      the id was not bookmarked. */
  lemma ToggleTwice(bookmarks: seq<string>, id: string)
    ensures forall x :: x in ToggleBookmark(ToggleBookmark(bookmarks, id), id) <==> x in bookmarks
    ensures id !in bookmarks ==> ToggleBookmark(ToggleBookmark(bookmarks, id), id) == bookmarks
  {
    if id !in bookmarks {
      var once := bookmarks + [id];
      assert Without(once, id) == bookmarks by { WithoutAppended(bookmarks, id); }
    }
  }

  lemma {:induction false} WithoutAppended(ids: seq<string>, id: string)
    requires id !in ids
    ensures Without(ids + [id], id) == ids
  {
    if ids == [] {
      assert Without([id][1..], id) == [];
    } else {
      WithoutAppended(ids[1..], id);
      assert (ids + [id])[1..] == ids[1..] + [id];
      assert [ids[0]] + ids[1..] == ids;
    }
  }

  // -------------------------------------------------------------- sections

  /** The items a section lists: the flat list restricted to the section's
      group, filtered, then sorted. */
  function SectionItems(flat: seq<Item>, group: string, query: string, category: string, region: string,
                        sortBy: string, dateOf: Item -> int): (r: seq<Item>)
    ensures forall x :: x in r <==> x in flat && x.groupTitle == Some(group) && Keep(x, query, category, region)
    ensures multiset(r) == multiset(Filter(InGroup(flat, group), query, category, region))
    ensures sortBy == "engagement" ==> Listing.SortedDesc(r, Engagement)
    ensures sortBy == "date" ==> Listing.SortedDesc(r, dateOf)
    ensures sortBy != "engagement" && sortBy != "date" ==> r == Filter(InGroup(flat, group), query, category, region)
  {
    var mine := InGroup(flat, group);
    var r := SortContent(Filter(mine, query, category, region), sortBy, dateOf);
    assert forall x :: x in r <==> x in Filter(mine, query, category, region) by {
      forall x ensures x in r <==> x in Filter(mine, query, category, region) {
        assert x in r <==> x in multiset(r);
      }
    }
    r
  }

  /** `flat.filter(item => item.groupTitle === group)`. */
  function InGroup(flat: seq<Item>, group: string): (r: seq<Item>)
    ensures forall x :: x in r <==> x in flat && x.groupTitle == Some(group)
    ensures |r| <= |flat|
  {
    if flat == [] then []
    else (if flat[0].groupTitle == Some(group) then [flat[0]] else []) + InGroup(flat[1..], group)
  }

  /** The sections the page renders: those with a non-empty list, in their
      fixed order. */
  function RenderedSections(flat: seq<Item>, query: string, category: string, region: string,
                            sortBy: string, dateOf: Item -> int): (r: seq<Section>)
    ensures forall s :: s in r <==> s in Sections && SectionItems(flat, s.group, query, category, region, sortBy, dateOf) != []
  {
    SectionsWithItems(Sections, flat, query, category, region, sortBy, dateOf)
  }

  function SectionsWithItems(secs: seq<Section>, flat: seq<Item>, query: string, category: string, region: string,
                             sortBy: string, dateOf: Item -> int): (r: seq<Section>)
    ensures forall s :: s in r <==> s in secs && SectionItems(flat, s.group, query, category, region, sortBy, dateOf) != []
  {
    if secs == [] then []
    else (if SectionItems(flat, secs[0].group, query, category, region, sortBy, dateOf) != [] then [secs[0]] else [])
         + SectionsWithItems(secs[1..], flat, query, category, region, sortBy, dateOf)
  }
}
