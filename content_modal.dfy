/** The content modal of the vision-and-mission page
    (frontend/src/pages/our-vision-mission-page/components/ContentModal.jsx):
    the full-screen gallery viewer with its wrap-around navigation, swipe
    and key handling, the gallery thumbnails, the "Key Information" stats and
    the rule for counting a video view. */
module ContentModal {
  import opened Wrappers
  import opened JsonValues

  // ------------------------------------------------------------ navigation

  /** The next index: one on, or back to the first after the last. */
  function Next(i: int, n: nat): (r: int)
    ensures 1 <= n && 0 <= i < n ==> 0 <= r < n
    ensures 0 <= i < n - 1 ==> r == i + 1
    ensures i >= n - 1 ==> r == 0
  {
    if i < n - 1 then i + 1 else 0
  }

  /** The previous index: one back, or on to the last from the first. */
  function Prev(i: int, n: nat): (r: int)
    ensures 1 <= n && 0 <= i < n ==> 0 <= r < n
    ensures 0 < i ==> r == i - 1
    ensures i <= 0 ==> r == n - 1
  {
    if i > 0 then i - 1 else n - 1
  }

  /** Previous undoes next and next undoes previous on every index of a
      non-empty gallery. */
  lemma NextPrevInverse(i: int, n: nat)
    requires 0 <= i < n
    ensures Prev(Next(i, n), n) == i
    ensures Next(Prev(i, n), n) == i
  {
  }

  /** `k` presses of next. */
  function NextTimes(i: int, n: nat, k: nat): (r: int)
    ensures 0 <= i < n ==> 0 <= r < n
  {
    if k == 0 then i else Next(NextTimes(i, n, k - 1), n)
  }

  /** `k` presses of previous. */
  function PrevTimes(i: int, n: nat, k: nat): (r: int)
    ensures 0 <= i < n ==> 0 <= r < n
  {
    if k == 0 then i else Prev(PrevTimes(i, n, k - 1), n)
  }

  /** Composing presses: `a` presses and then `b` more are `a + b` presses. */
  lemma {:induction false} NextTimesAdd(i: int, n: nat, a: nat, b: nat)
    ensures NextTimes(i, n, a + b) == NextTimes(NextTimes(i, n, a), n, b)
  {
    if b > 0 {
      NextTimesAdd(i, n, a, b - 1);
    }
  }

  lemma {:induction false} PrevTimesAdd(i: int, n: nat, a: nat, b: nat)
    ensures PrevTimes(i, n, a + b) == PrevTimes(PrevTimes(i, n, a), n, b)
  {
    if b > 0 {
      PrevTimesAdd(i, n, a, b - 1);
    }
  }

  /** Before the end of the gallery, `k` presses of next move `k` places on. */
  lemma {:induction false} NextTimesClimb(i: int, n: nat, k: nat)
    requires 0 <= i && i + k < n
    ensures NextTimes(i, n, k) == i + k
  {
    if k > 0 {
      NextTimesClimb(i, n, k - 1);
    }
  }

  /** Before the start of the gallery, `k` presses of previous move `k` places
      back. */
  lemma {:induction false} PrevTimesDescend(i: int, n: nat, k: nat)
    requires k <= i < n
    ensures PrevTimes(i, n, k) == i - k
  {
    if k > 0 {
      PrevTimesDescend(i, n, k - 1);
    }
  }

  /** A full round of `n` presses of next returns to the start. */
  lemma NextFullRound(i: int, n: nat)
    requires 0 <= i < n
    ensures NextTimes(i, n, n) == i
  {
    NextTimesClimb(i, n, n - 1 - i);
    NextTimesAdd(i, n, n - 1 - i, 1);
    NextTimesClimb(0, n, i);
    NextTimesAdd(i, n, n - i, i);
  }

  /** A full round of `n` presses of previous returns to the start. */
  lemma PrevFullRound(i: int, n: nat)
    requires 0 <= i < n
    ensures PrevTimes(i, n, n) == i
  {
    PrevTimesDescend(i, n, i);
    PrevTimesAdd(i, n, i, 1);
    PrevTimesDescend(n - 1, n, n - 1 - i);
    PrevTimesAdd(i, n, i + 1, n - 1 - i);
  }

  /** Navigation is periodic with the gallery's size. */
  lemma Periodic(i: int, n: nat, k: nat)
    requires 0 <= i < n
    ensures NextTimes(i, n, k + n) == NextTimes(i, n, k)
    ensures PrevTimes(i, n, k + n) == PrevTimes(i, n, k)
  {
    NextTimesAdd(i, n, k, n);
    NextFullRound(NextTimes(i, n, k), n);
    PrevTimesAdd(i, n, k, n);
    PrevFullRound(PrevTimes(i, n, k), n);
  }

  const MinSwipeDistance: int := 50

  /** `handleSwipe`: a swipe of more than 50 pixels to the left shows the
      next image, more than 50 to the right the previous one; anything
      shorter changes nothing. */
  function Swipe(i: int, n: nat, start: int, end: int): (r: int)
    ensures start - end > MinSwipeDistance ==> r == Next(i, n)
    ensures end - start > MinSwipeDistance ==> r == Prev(i, n)
    ensures -MinSwipeDistance <= start - end <= MinSwipeDistance ==> r == i
    ensures 1 <= n && 0 <= i < n ==> 0 <= r < n
  {
    var distance := start - end;
    if distance > MinSwipeDistance then Next(i, n)
    else if distance < -MinSwipeDistance then Prev(i, n)
    else i
  }

  // ---------------------------------------------------------------- images

  /** `openGallery`'s normalisation of one image: a string is kept; otherwise
      its `url` when truthy, else '/uploads/' followed by its `publicId`, or
      by nothing. */
  function Normalise(img: Json): (r: Json)
    ensures img.JString? ==> r == img
    ensures r.JString? || (FieldTruthy(img, "url") && !Field(img, "url").value.JString?)
    ensures !img.JString? && !FieldTruthy(img, "url") ==> r.JString? && Text.StartsWith(r.s, "/uploads/")
    ensures !img.JString? && FieldTruthy(img, "url") ==> r == Field(img, "url").value
    ensures !img.JString? && !FieldTruthy(img, "url") && FieldTruthy(img, "publicId") ==>
              r.s == "/uploads/" + Show(Field(img, "publicId").value)
    ensures !img.JString? && !FieldTruthy(img, "url") && !FieldTruthy(img, "publicId") ==> r == JString("/uploads/")
  {
    if img.JString? then img
    else if FieldTruthy(img, "url") then Field(img, "url").value
    else JString("/uploads/" + (if FieldTruthy(img, "publicId") then Show(Field(img, "publicId").value) else ""))
  }

  /** Normalising a normalised image changes nothing once it is a string. */
  lemma NormaliseStable(img: Json)
    requires Normalise(img).JString?
    ensures Normalise(Normalise(img)) == Normalise(img)
  {
  }

  /** The viewer's list: every image normalised, in order. */
  function NormaliseAll(images: seq<Json>): (r: seq<Json>)
    ensures |r| == |images|
    ensures forall j :: 0 <= j < |r| ==> r[j] == Normalise(images[j])
  {
    seq(|images|, j requires 0 <= j < |images| => Normalise(images[j]))
  }

  /** The source a gallery thumbnail shows, or none when it is skipped: a
      non-empty string; for an object, its truthy `url`, else '/uploads/' and
      its truthy `publicId`. */
  function Thumbnail(img: Json): (r: Option<Json>)
    ensures r.Some? ==> Truthy(r.value)
    ensures img.JObject? && !FieldTruthy(img, "url") && !FieldTruthy(img, "publicId") ==> r.None?
    ensures img.JString? ==> (r.Some? <==> img.s != [])
  {
    if img.JString? then (if img.s != [] then Some(img) else None)
    else if img.JObject? && FieldTruthy(img, "url") then Some(Field(img, "url").value)
    else if img.JObject? && FieldTruthy(img, "publicId") then Some(JString("/uploads/" + Show(Field(img, "publicId").value)))
    else None
  }

  /** A thumbnail and the viewer opened from it show the same source. */
  lemma ThumbnailMatchesViewer(img: Json)
    requires Thumbnail(img).Some?
    ensures Normalise(img) == Thumbnail(img).value
  {
  }

  /** `renderGallery`: the rendered thumbnails as (index in the gallery,
      source) pairs, in gallery order; none without a non-empty gallery. */
  function Thumbnails(content: Json): (r: seq<(nat, Json)>)
    ensures forall e :: e in r <==> ThumbnailAt(content, e.0, e.1)
    ensures forall a, b :: 0 <= a < b < |r| ==> r[a].0 < r[b].0
  {
    match Field(content, "gallery")
    case Some(JArray(items)) => ThumbnailsFrom(items, 0)
    case _ => []
  }

  /** The gallery of `content` holds at position `j` an image whose
      thumbnail shows `src`. */
  predicate ThumbnailAt(content: Json, j: nat, src: Json) {
    match Field(content, "gallery")
    case Some(JArray(items)) => j < |items| && Thumbnail(items[j]) == Some(src)
    case _ => false
  }

  function ThumbnailsFrom(items: seq<Json>, from: nat): (r: seq<(nat, Json)>)
    requires from <= |items|
    ensures forall e :: e in r <==> from <= e.0 < |items| && Thumbnail(items[e.0]) == Some(e.1)
    ensures forall a, b :: 0 <= a < b < |r| ==> from <= r[a].0 < r[b].0
    ensures forall a :: 0 <= a < |r| ==> from <= r[a].0
    decreases |items| - from
  {
    if from == |items| then []
    else
      var rest := ThumbnailsFrom(items, from + 1);
      match Thumbnail(items[from])
      case Some(src) => [(from, src)] + rest
      case None => rest
  }

  /** Clicking a thumbnail opens the viewer on an image it holds. */
  lemma ThumbnailOpensInRange(content: Json, e: (nat, Json))
    requires e in Thumbnails(content)
    ensures Field(content, "gallery").Some? && Field(content, "gallery").value.JArray?
    ensures e.0 < |NormaliseAll(Field(content, "gallery").value.items)|
    ensures NormaliseAll(Field(content, "gallery").value.items)[e.0] == e.1
  {
    var items := Field(content, "gallery").value.items;
    ThumbnailMatchesViewer(items[e.0]);
  }

  // ---------------------------------------------------------------- viewer

  /** The full-screen viewer's state. */
  class GalleryViewer {
    var isOpen: bool
    var index: int
    var images: seq<Json>

    /** The index points into the list. */
    predicate Valid()
      reads this
    {
      0 <= index < |images|
    }

    constructor()
      ensures !isOpen && index == 0 && images == []
    {
      isOpen := false;
      index := 0;
      images := [];
    }

    /** `openGallery(images, index)`. */
    method OpenGallery(gallery: seq<Json>, at: int)
      modifies this
      ensures images == NormaliseAll(gallery) && index == at && isOpen
      ensures Valid() <==> 0 <= at < |gallery|
    {
      images := NormaliseAll(gallery);
      index := at;
      isOpen := true;
    }

    /** The right-hand button and the right arrow. */
    method ShowNext()
      modifies this
      ensures index == Next(old(index), |images|)
      ensures images == old(images) && isOpen == old(isOpen)
      ensures old(Valid()) ==> Valid()
    {
      index := Next(index, |images|);
    }

    /** The left-hand button and the left arrow. */
    method ShowPrevious()
      modifies this
      ensures index == Prev(old(index), |images|)
      ensures images == old(images) && isOpen == old(isOpen)
      ensures old(Valid()) ==> Valid()
    {
      index := Prev(index, |images|);
    }

    /** A completed swipe from `start` to `end`. */
    method SwipeFrom(start: int, end: int)
      modifies this
      ensures index == Swipe(old(index), |images|, start, end)
      ensures images == old(images) && isOpen == old(isOpen)
      ensures old(Valid()) ==> Valid()
    {
      index := Swipe(index, |images|, start, end);
    }

    /** The close button. */
    method Close()
      modifies this
      ensures !isOpen && index == old(index) && images == old(images)
    {
      isOpen := false;
    }

    /** The window's `keydown` listener: nothing while the viewer is closed;
        the arrows move, Escape closes, any other key does nothing. */
    method KeyDown(key: string)
      modifies this
      ensures images == old(images)
      ensures !old(isOpen) ==> !isOpen && index == old(index)
      ensures old(isOpen) && key == "ArrowLeft" ==> isOpen && index == Prev(old(index), |images|)
      ensures old(isOpen) && key == "ArrowRight" ==> isOpen && index == Next(old(index), |images|)
      ensures old(isOpen) && key == "Escape" ==> !isOpen && index == old(index)
      ensures key !in {"ArrowLeft", "ArrowRight", "Escape"} ==> isOpen == old(isOpen) && index == old(index)
      ensures old(Valid()) ==> Valid()
    {
      if !isOpen {
        return;
      }
      if key == "ArrowLeft" {
        ShowPrevious();
      } else if key == "ArrowRight" {
        ShowNext();
      } else if key == "Escape" {
        Close();
      }
    }
  }

  // ----------------------------------------------------------------- stats

  /** One "Key Information" entry: its label, icon and value. */
  datatype Stat = Stat(caption: string, icon: string, value: Json)

  /** The content fields `renderStats` shows, in order, with their labels
      and icons. */
  const StatFields: seq<(string, string, string)> := [
    ("viewCount", "Views", "Eye"),
    ("photos", "Photos", "Image"),
    ("articles", "Articles", "FileText"),
    ("beneficiaries", "Beneficiaries", "Users"),
    ("duration", "Duration", "Clock"),
    ("programDuration", "Program Duration", "Calendar"),
    ("budget", "Budget", "IndianRupee"),
    ("targetFarms", "Target Farms", "MapPin"),
    ("location", "Location", "MapPin")]

  /** The stats for the fields from position `from` of `fields` on. */
  function StatsFrom(content: Json, fields: seq<(string, string, string)>, from: nat): (r: seq<Stat>)
    requires from <= |fields|
    ensures |r| <= |fields| - from
    decreases |fields| - from
  {
    if from == |fields| then []
    else
      var rest := StatsFrom(content, fields, from + 1);
      match StatOf(content, fields[from])
      case Some(s) => [s] + rest
      case None => rest
  }

  /** The entry for one field: present only when the content's field is
      truthy. */
  function StatOf(content: Json, field: (string, string, string)): (r: Option<Stat>)
    ensures r.Some? <==> FieldTruthy(content, field.0)
    ensures r.Some? ==> r.value == Stat(field.1, field.2, Field(content, field.0).value)
  {
    if FieldTruthy(content, field.0) then Some(Stat(field.1, field.2, Field(content, field.0).value)) else None
  }

  /** `renderStats`: the entries of the truthy fields, in the fixed order;
      the section is left out when the list is empty. */
  function Stats(content: Json): (r: seq<Stat>)
    ensures |r| <= 9
    ensures forall s :: s in r <==> exists j :: 0 <= j < |StatFields| && StatOf(content, StatFields[j]) == Some(s)
    ensures r == [] <==> forall j :: 0 <= j < |StatFields| ==> !FieldTruthy(content, StatFields[j].0)
  {
    StatsFromMembers(content, StatFields, 0);
    StatsFromEmpty(content, StatFields, 0);
    StatsFrom(content, StatFields, 0)
  }

  /** The entries are exactly those of the truthy fields from `from` on. */
  lemma {:induction false} StatsFromMembers(content: Json, fields: seq<(string, string, string)>, from: nat)
    requires from <= |fields|
    ensures forall s :: s in StatsFrom(content, fields, from) <==>
      exists j :: from <= j < |fields| && StatOf(content, fields[j]) == Some(s)
    decreases |fields| - from
  {
    if from < |fields| {
      StatsFromMembers(content, fields, from + 1);
    }
  }

  /** There are no entries exactly when no field from `from` on is truthy. */
  lemma {:induction false} StatsFromEmpty(content: Json, fields: seq<(string, string, string)>, from: nat)
    requires from <= |fields|
    ensures StatsFrom(content, fields, from) == [] <==>
      forall j :: from <= j < |fields| ==> !FieldTruthy(content, fields[j].0)
    decreases |fields| - from
  {
    if from < |fields| {
      StatsFromEmpty(content, fields, from + 1);
    }
  }

  /** The entries from `from` on, indexed: entry `k` is the stat of field
      `idx[k]`, the indices rise strictly, and every truthy field from `from`
      on has its index in the list, so the entries follow the fields' order. */
  lemma {:induction false} StatsFromIndexed(content: Json, fields: seq<(string, string, string)>, from: nat)
      returns (idx: seq<nat>)
    requires from <= |fields|
    ensures var r := StatsFrom(content, fields, from);
      && |idx| == |r|
      && (forall k :: 0 <= k < |idx| ==> from <= idx[k] < |fields| && StatOf(content, fields[idx[k]]) == Some(r[k]))
      && (forall a, b :: 0 <= a < b < |idx| ==> idx[a] < idx[b])
      && (forall j :: from <= j < |fields| && FieldTruthy(content, fields[j].0) ==> j in idx)
    decreases |fields| - from
  {
    if from == |fields| {
      idx := [];
    } else {
      var rest := StatsFromIndexed(content, fields, from + 1);
      if StatOf(content, fields[from]).Some? {
        idx := [from] + rest;
      } else {
        idx := rest;
      }
    }
  }

  /** `renderStats`' entries in order: the stats of the truthy fields of the
      fixed list, each at the position its field's rank gives it. */
  lemma StatsIndexed(content: Json) returns (idx: seq<nat>)
    ensures |idx| == |Stats(content)|
    ensures forall k :: 0 <= k < |idx| ==> idx[k] < |StatFields| && StatOf(content, StatFields[idx[k]]) == Some(Stats(content)[k])
    ensures forall a, b :: 0 <= a < b < |idx| ==> idx[a] < idx[b]
    ensures forall j :: 0 <= j < |StatFields| && FieldTruthy(content, StatFields[j].0) ==> j in idx
  {
    idx := StatsFromIndexed(content, StatFields, 0);
  }

  /** Views come first whenever the view count is truthy. */
  lemma ViewsFirst(content: Json)
    requires FieldTruthy(content, "viewCount")
    ensures Stats(content) != [] && Stats(content)[0] == Stat("Views", "Eye", Field(content, "viewCount").value)
  {
  }

  /** The location, when truthy, is the last entry. */
  lemma LocationLast(content: Json)
    requires FieldTruthy(content, "location")
    ensures Stats(content) != [] && Stats(content)[|Stats(content)| - 1] == Stat("Location", "MapPin", Field(content, "location").value)
  {
    LastFieldLast(content, StatFields, 0);
  }

  /** A truthy last field gives the last entry. */
  lemma {:induction false} LastFieldLast(content: Json, fields: seq<(string, string, string)>, from: nat)
    requires from < |fields| && FieldTruthy(content, fields[|fields| - 1].0)
    ensures var r := StatsFrom(content, fields, from);
      r != [] && Some(r[|r| - 1]) == StatOf(content, fields[|fields| - 1])
    decreases |fields| - from
  {
    if from < |fields| - 1 {
      LastFieldLast(content, fields, from + 1);
      KeepsLast(content, fields, from);
    } else {
      OnlyLast(content, fields);
    }
  }

  /** From the last field on, a truthy field is the only entry. */
  lemma OnlyLast(content: Json, fields: seq<(string, string, string)>)
    requires fields != [] && FieldTruthy(content, fields[|fields| - 1].0)
    ensures StatsFrom(content, fields, |fields| - 1) == [StatOf(content, fields[|fields| - 1]).value]
  {
  }

  /** An entry put in front leaves the last entry where it was. */
  lemma KeepsLast(content: Json, fields: seq<(string, string, string)>, from: nat)
    requires from < |fields| && StatsFrom(content, fields, from + 1) != []
    ensures var r := StatsFrom(content, fields, from);
      var rest := StatsFrom(content, fields, from + 1);
      r != [] && r[|r| - 1] == rest[|rest| - 1]
  {
  }

  // ------------------------------------------------------------ view count

  /** The effect that asks the server to count a view fires only when the
      modal is open, the content has an `_id` and its `fileType` is 'video'. */
  predicate CountsView(isOpen: bool, content: Json): (r: bool)
    ensures r <==> isOpen && content.JObject? && "_id" in content.fields && Truthy(content.fields["_id"])
                   && "fileType" in content.fields && content.fields["fileType"] == JString("video")
  {
    isOpen && FieldTruthy(content, "_id") && Field(content, "fileType") == Some(JString("video"))
  }

  /** Images, documents and content without an id never count a view. */
  lemma OnlyVideosCountViews(isOpen: bool, content: Json)
    ensures CountsView(isOpen, content) ==> isOpen && content.JObject? && "_id" in content.fields
    ensures Field(content, "fileType") != Some(JString("video")) ==> !CountsView(isOpen, content)
  {
  }
}
