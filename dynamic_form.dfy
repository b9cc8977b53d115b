/** The admin form (frontend/src/pages/admin-dashboard/components/DynamicForm.jsx):
    the initial values, previews and gallery lists built from the item being
    edited, and the multi-file gallery input that accumulates and removes
    files. */
module DynamicForm {
  import opened Wrappers
  import opened JsonValues
  import Text
  import CM = ContentManagement

  // ------------------------------------------------------------ JS helpers

  /** `initialData?.[key]`: undefined (None) without an item or without the
      field. */
  function Get(initial: Option<map<string, Json>>, key: string): (r: Option<Json>)
    ensures r.Some? <==> initial.Some? && key in initial.value
  {
    if initial.Some? && key in initial.value then Some(initial.value[key]) else None
  }

  predicate IsSet(v: Option<Json>) {
    v.Some? && Truthy(v.value)
  }

  /** JavaScript's `a || b` on possibly undefined values. */
  function Or(a: Option<Json>, b: Option<Json>): (r: Option<Json>)
    ensures IsSet(a) ==> r == a
    ensures !IsSet(a) ==> r == b
  {
    if IsSet(a) then a else b
  }

  /** A value read from the item, as the form holds it. */
  function FromJson(v: Option<Json>): (r: CM.Value)
    ensures r == CM.Missing <==> v.None? || v.value.JNull?
    ensures CM.IsTruthy(r) <==> IsSet(v)
  {
    match v
    case None => CM.Missing
    case Some(JNull) => CM.Missing
    case Some(JString(s)) => CM.Str(s)
    case Some(j) => CM.Data(j)
  }

  // ---------------------------------------------------------- gallery list

  /** The preview of one stored gallery image: a non-empty string as it is,
      else the object's `url`, '/uploads/' + `publicId`, `path` or
      `filePath`, the first that is set; anything else is dropped. */
  function Preview(img: Json): (r: Option<Json>)
    ensures r.Some? ==> Truthy(r.value)
    ensures img.JString? ==> (r.Some? <==> img.s != []) && (r.Some? ==> r.value == img)
    ensures !img.JString? && !img.JObject? ==> r.None?
    ensures img.JObject? && FieldTruthy(img, "url") ==> r == Field(img, "url")
    ensures img.JObject? && !FieldTruthy(img, "url") && FieldTruthy(img, "publicId") ==>
              r == Some(JString("/uploads/" + Show(Field(img, "publicId").value)))
    ensures img.JObject? && !FieldTruthy(img, "url") && !FieldTruthy(img, "publicId") && FieldTruthy(img, "path") ==>
              r == Field(img, "path")
    ensures img.JObject? && !FieldTruthy(img, "url") && !FieldTruthy(img, "publicId") && !FieldTruthy(img, "path") ==>
              r == (if FieldTruthy(img, "filePath") then Field(img, "filePath") else None)
  {
    match img
    case JString(s) => if s != [] then Some(img) else None
    case JObject(_) =>
      if FieldTruthy(img, "url") then Field(img, "url")
      else if FieldTruthy(img, "publicId") then Some(JString("/uploads/" + Show(Field(img, "publicId").value)))
      else if FieldTruthy(img, "path") then Field(img, "path")
      else if FieldTruthy(img, "filePath") then Field(img, "filePath")
      else None
    case _ => None
  }

  /** `gallery.map(...).filter(Boolean)`: the previews of the images that
      have one, in order. */
  function Previews(images: seq<Json>): (r: seq<Json>)
    ensures |r| <= |images|
    ensures forall x :: x in r ==> Truthy(x)
    ensures forall i :: 0 <= i < |images| && Preview(images[i]).Some? ==> Preview(images[i]).value in r
    ensures |images| == 1 ==> r == if Preview(images[0]).Some? then [Preview(images[0]).value] else []
  {
    if images == [] then []
    else
      var front := Previews(images[..|images| - 1]);
      var last := Preview(images[|images| - 1]);
      assert forall i :: 0 <= i < |images| - 1 ==> images[..|images| - 1][i] == images[i];
      front + (if last.Some? then [last.value] else [])
  }

  /** The previews of a concatenation are those of each part, in order;
      with the one-image case this fixes `Previews` on every list. */
  lemma {:induction false} PreviewsAppend(a: seq<Json>, b: seq<Json>)
    ensures Previews(a + b) == Previews(a) + Previews(b)
    decreases |b|
  {
    if b == [] {
      assert a + b == a;
    } else {
      assert (a + b)[..|a + b| - 1] == a + b[..|b| - 1];
      PreviewsAppend(a, b[..|b| - 1]);
    }
  }

  /** Every preview in the list is the preview of one of the images. */
  lemma {:induction false} PreviewsSound(images: seq<Json>, x: Json)
    requires x in Previews(images)
    ensures exists i :: 0 <= i < |images| && Preview(images[i]) == Some(x)
    decreases |images|
  {
    var front := images[..|images| - 1];
    if x in Previews(front) {
      PreviewsSound(front, x);
      var i :| 0 <= i < |front| && Preview(front[i]) == Some(x);
      assert images[i] == front[i];
    } else {
      assert Preview(images[|images| - 1]) == Some(x);
    }
  }

  /** A stored gallery as a list: itself when an array, else a one-element
      list when set, else empty. */
  function GalleryImages(g: Json): (r: seq<Json>)
    ensures g.JArray? ==> r == g.items
    ensures !g.JArray? ==> (r == [] <==> !Truthy(g))
  {
    if g.JArray? then g.items else if Truthy(g) then [g] else []
  }

  /** The preview list a multi-file field starts with: the stored gallery's
      previews for the 'gallery' field of an item that has one, else none. */
  function InitialGallery(name: string, initial: Option<map<string, Json>>): (r: seq<Json>)
    ensures name != "gallery" || !IsSet(Get(initial, "gallery")) ==> r == []
  {
    var g := Get(initial, "gallery");
    if name == "gallery" && IsSet(g) then Previews(GalleryImages(g.value)) else []
  }

  /** One gallery entry as the text area shows it: a string as it is, else
      its `url`, else ''. */
  function EntryText(img: Json): string {
    if img.JString? then img.s else if FieldTruthy(img, "url") then Show(Field(img, "url").value) else ""
  }

  /** The entries' texts, in order. */
  function EntryTexts(images: seq<Json>): (r: seq<string>)
    ensures |r| == |images| && forall i :: 0 <= i < |images| ==> r[i] == EntryText(images[i])
  {
    seq(|images|, i requires 0 <= i < |images| => EntryText(images[i]))
  }

  /** A text-area gallery as text: the strings and the objects' `url`s
      joined with ', '. A null entry throws (None). */
  function GalleryText(images: seq<Json>): (r: Option<string>)
    ensures r.None? <==> JNull in images
    ensures r.Some? ==> r.value == Text.JoinWith(EntryTexts(images), ", ")
  {
    if images == [] then Some("")
    else
      var rest := GalleryText(images[1..]);
      var img := images[0];
      if img.JNull? || rest.None? then None
      else
        var first := EntryText(img);
        assert EntryTexts(images) == [first] + EntryTexts(images[1..]);
        Some(if |images| == 1 then first else first + ", " + rest.value)
  }

  // -------------------------------------------------------- initial values

  const VideoTypes: seq<string> := ["Documentary", "Video Series", "Video"]

  /** The first option naming a video type, else 'Documentary'. */
  function VideoOption(options: seq<string>): (r: string)
    ensures (r in options && r in VideoTypes) || (r == "Documentary" && forall o :: o in options ==> o !in VideoTypes)
    ensures r in options && r in VideoTypes ==>
              exists k :: 0 <= k < |options| && options[k] == r && forall j :: 0 <= j < k ==> options[j] !in VideoTypes
  {
    if options == [] then "Documentary"
    else if options[0] in VideoTypes then options[0]
    else
      var r := VideoOption(options[1..]);
      assert r in options && r in VideoTypes ==>
               exists k :: 0 <= k < |options| && options[k] == r && forall j :: 0 <= j < k ==> options[j] !in VideoTypes by {
        if r in options[1..] && r in VideoTypes {
          var k :| 0 <= k < |options[1..]| && options[1..][k] == r && forall j :: 0 <= j < k ==> options[1..][j] !in VideoTypes;
          assert options[k + 1] == r;
          assert forall j :: 0 <= j < k + 1 ==> options[j] !in VideoTypes by {
            forall j | 0 <= j < k + 1 ensures options[j] !in VideoTypes {
              if j > 0 { assert options[j] == options[1..][j - 1]; }
            }
          }
        }
      }
      r
  }

  /** The field is not a file input, not a date with a stored value and not a
      gallery text area with a stored gallery: the rules by name apply. */
  predicate ByName(f: CM.FormField, initial: Option<map<string, Json>>) {
    && f.kind != "file" && f.kind != "file-multiple"
    && !(f.kind == "date" && IsSet(Get(initial, f.name)))
    && !(f.name == "gallery" && IsSet(Get(initial, f.name)))
  }

  /** The value a field starts with. None when the initialisation throws (a
      null entry in a text-area gallery). `toDay` is the 'YYYY-MM-DD' form
      of a parseable date. */
  function InitialValue(f: CM.FormField, initial: Option<map<string, Json>>, toDay: Json -> Option<string>): (r: Option<CM.Value>)
    ensures f.kind == "file" ==> r == Some(CM.Missing)
    ensures f.kind == "file-multiple" ==> r == Some(CM.Uploads([]))
    ensures r.None? ==> f.name == "gallery" && IsSet(Get(initial, "gallery")) && f.kind !in {"file", "file-multiple", "date"}
    ensures initial.None? ==> r.Some? && (f.kind !in {"file", "file-multiple"} ==> r.value == CM.Str(""))
    ensures r.Some? && f.kind != "file" ==> r.value != CM.Missing
    ensures f.kind == "date" && IsSet(Get(initial, f.name)) ==> r == Some(CM.Str(toDay(Get(initial, f.name).value).GetOr("")))
    ensures (f.kind !in {"file", "file-multiple", "date"} && f.name == "gallery" && IsSet(Get(initial, "gallery"))
             && Get(initial, "gallery").value.JArray?) ==>
              && (r.Some? <==> GalleryText(Get(initial, "gallery").value.items).Some?)
              && (r.Some? ==> r.value == CM.Str(GalleryText(Get(initial, "gallery").value.items).value))
    ensures (f.kind !in {"file", "file-multiple", "date"} && f.name == "gallery" && IsSet(Get(initial, "gallery"))
             && !Get(initial, "gallery").value.JArray?) ==> r == Some(FromJson(Get(initial, "gallery")))
    ensures ByName(f, initial) && f.name == "type" && Get(initial, "fileType") == Some(JString("document")) ==>
              r == Some(CM.Str("News Article"))
    ensures ByName(f, initial) && f.name == "type" && Get(initial, "fileType") == Some(JString("video")) ==>
              r == Some(CM.Str(VideoOption(f.options)))
    ensures ByName(f, initial) && f.name == "type" && IsSet(Get(initial, "fileType"))
              && Get(initial, "fileType").value !in {JString("document"), JString("video")} ==>
              r == Some(FromJson(Or(Get(initial, f.name), Some(JString("")))))
    ensures ByName(f, initial) && (f.name == "name" || f.name == "title") && initial.Some? ==>
              r == Some(FromJson(Or(Or(Or(Get(initial, f.name), Get(initial, "title")), Get(initial, "name")), Some(JString("")))))
    ensures ByName(f, initial) && !(f.name == "type" && IsSet(Get(initial, "fileType")))
              && !((f.name == "name" || f.name == "title") && initial.Some?) ==>
              r == Some(FromJson(Or(Get(initial, f.name), Some(JString("")))))
  {
    var own := Get(initial, f.name);
    if f.kind == "file" then Some(CM.Missing)
    else if f.kind == "file-multiple" then Some(CM.Uploads([]))
    else if f.kind == "date" && IsSet(own) then
      Some(CM.Str(toDay(own.value).GetOr("")))
    else if f.name == "gallery" && IsSet(own) then
      (if own.value.JArray? then
         (match GalleryText(own.value.items)
          case None => None
          case Some(t) => Some(CM.Str(t)))
       else Some(FromJson(own)))
    else if f.name == "type" && IsSet(Get(initial, "fileType")) then
      (var fileType := Get(initial, "fileType").value;
       if fileType == JString("document") then Some(CM.Str("News Article"))
       else if fileType == JString("video") then Some(CM.Str(VideoOption(f.options)))
       else Some(FromJson(Or(own, Some(JString(""))))))
    else if (f.name == "name" || f.name == "title") && initial.Some? then
      Some(FromJson(Or(Or(Or(own, Get(initial, "title")), Get(initial, "name")), Some(JString("")))))
    else Some(FromJson(Or(own, Some(JString("")))))
  }

  /** An item that has only a title fills the 'name' field with it. */
  lemma NameFromTitle(f: CM.FormField, item: map<string, Json>, title: string, toDay: Json -> Option<string>)
    requires f.name == "name" && f.kind == "text"
    requires "name" !in item && "title" in item && item["title"] == JString(title) && title != []
    ensures InitialValue(f, Some(item), toDay) == Some(CM.Str(title))
  {
  }

  /** A field of an item is filled with the item's value when that value is
      a non-empty string. */
  lemma FieldFromItem(f: CM.FormField, item: map<string, Json>, v: string, toDay: Json -> Option<string>)
    requires f.kind == "text" && f.name !in {"gallery", "type", "name", "title"}
    requires f.name in item && item[f.name] == JString(v) && v != []
    ensures InitialValue(f, Some(item), toDay) == Some(CM.Str(v))
  {
  }

  /** The preview a single-file field starts with when editing. */
  function InitialPreview(name: string, item: map<string, Json>): (r: Option<Json>)
    ensures name == "mediafile" ==> r == Or(Get(Some(item), "mediaUrl"), Get(Some(item), "filePath"))
    ensures name == "thumbnail" ==> r == Or(Get(Some(item), "thumbnailUrl"), Get(Some(item), "thumbnailPath"))
    ensures name != "mediafile" && name != "thumbnail" ==>
              r == Or(Or(Get(Some(item), name + "Url"), Get(Some(item), name)), Get(Some(item), "filePath"))
  {
    var i := Some(item);
    if name == "mediafile" then Or(Get(i, "mediaUrl"), Get(i, "filePath"))
    else if name == "thumbnail" then Or(Get(i, "thumbnailUrl"), Get(i, "thumbnailPath"))
    else Or(Or(Get(i, name + "Url"), Get(i, name)), Get(i, "filePath"))
  }

  /** What the initialisation effect sets: the form values (in field
      order), the single-file previews, the multi-file preview lists, and
      the file accumulator. */
  datatype FormState = FormState(
    data: CM.Fields,
    previews: map<string, Option<Json>>,
    galleries: map<string, seq<Json>>,
    accumulator: map<string, seq<string>>)

  const Empty: FormState := FormState([], map[], map[], map[])

  /** One pass of the `fieldsConfig.forEach` body. */
  function Step(st: FormState, f: CM.FormField, initial: Option<map<string, Json>>, toDay: Json -> Option<string>): (r: Option<FormState>)
    ensures r.None? <==> InitialValue(f, initial, toDay).None?
    ensures r.Some? ==> CM.Lookup(r.value.data, f.name) == InitialValue(f, initial, toDay).value
    ensures r.Some? ==> forall k :: k != f.name ==> CM.Lookup(r.value.data, k) == CM.Lookup(st.data, k)
    ensures r.Some? ==> r.value.previews == if f.kind == "file" && initial.Some?
                                            then st.previews[f.name := InitialPreview(f.name, initial.value)] else st.previews
    ensures r.Some? ==> r.value.galleries == if f.kind == "file-multiple"
                                             then st.galleries[f.name := InitialGallery(f.name, initial)] else st.galleries
    ensures r.Some? ==> r.value.accumulator == if f.kind == "file-multiple" then st.accumulator[f.name := []] else st.accumulator
  {
    match InitialValue(f, initial, toDay)
    case None => None
    case Some(v) =>
      CM.LookupPutSame(st.data, f.name, v);
      assert forall k :: k != f.name ==> CM.Lookup(CM.Put(st.data, f.name, v), k) == CM.Lookup(st.data, k) by {
        forall k | k != f.name ensures CM.Lookup(CM.Put(st.data, f.name, v), k) == CM.Lookup(st.data, k) {
          CM.LookupPut(st.data, f.name, v, k);
        }
      }
      Some(FormState(
        CM.Put(st.data, f.name, v),
        if f.kind == "file" && initial.Some? then st.previews[f.name := InitialPreview(f.name, initial.value)] else st.previews,
        if f.kind == "file-multiple" then st.galleries[f.name := InitialGallery(f.name, initial)] else st.galleries,
        if f.kind == "file-multiple" then st.accumulator[f.name := []] else st.accumulator))
  }

  /** The state after the first fields of the configuration; the effect
      throws exactly when some field's initial value does. */
  function InitialState(config: seq<CM.FormField>, initial: Option<map<string, Json>>, toDay: Json -> Option<string>): (r: Option<FormState>)
    ensures r.None? <==> exists i :: 0 <= i < |config| && InitialValue(config[i], initial, toDay).None?
  {
    if config == [] then Some(Empty)
    else
      var front := config[..|config| - 1];
      assert forall i :: 0 <= i < |front| ==> front[i] == config[i];
      match InitialState(front, initial, toDay)
      case None => None
      case Some(st) => Step(st, config[|config| - 1], initial, toDay)
  }

  /** The initialisation effect: one step per configured field. */
  method Initialise(config: seq<CM.FormField>, initial: Option<map<string, Json>>, toDay: Json -> Option<string>)
    returns (r: Option<FormState>)
    ensures r == InitialState(config, initial, toDay)
  {
    var st := Empty;
    for i := 0 to |config|
      invariant InitialState(config[..i], initial, toDay) == Some(st)
    {
      assert config[..i + 1][..i] == config[..i];
      var next := Step(st, config[i], initial, toDay);
      if next.None? {
        assert InitialState(config[..i + 1], initial, toDay).None?;
        NoneStaysNone(config, i + 1, initial, toDay);
        return None;
      }
      st := next.value;
    }
    assert config[..|config|] == config;
    return Some(st);
  }

  /** After initialisation, the value under a field's name is that field's
      initial value, and its preview or preview list is the one built from
      the item; a later field of the same name would overwrite it. */
  lemma {:induction false} InitialFieldValue(config: seq<CM.FormField>, initial: Option<map<string, Json>>,
                                             toDay: Json -> Option<string>, i: nat)
    requires i < |config| && InitialState(config, initial, toDay).Some?
    requires forall j :: i < j < |config| ==> config[j].name != config[i].name
    ensures var st := InitialState(config, initial, toDay).value;
      var f := config[i];
      && InitialValue(f, initial, toDay).Some?
      && CM.Lookup(st.data, f.name) == InitialValue(f, initial, toDay).value
      && (f.kind == "file" && initial.Some? ==> f.name in st.previews && st.previews[f.name] == InitialPreview(f.name, initial.value))
      && (f.kind == "file-multiple" ==> f.name in st.galleries && st.galleries[f.name] == InitialGallery(f.name, initial))
  {
    var front := config[..|config| - 1];
    var last := config[|config| - 1];
    var before := InitialState(front, initial, toDay);
    assert before.Some?;
    if i < |config| - 1 {
      assert front[i] == config[i];
      assert forall j :: i < j < |front| ==> front[j] == config[j];
      InitialFieldValue(front, initial, toDay, i);
      assert last.name != config[i].name;
    }
  }

  /** A key that no configured field names is not in the form values. */
  lemma {:induction false} UnconfiguredKeyMissing(config: seq<CM.FormField>, initial: Option<map<string, Json>>,
                                                  toDay: Json -> Option<string>, key: string)
    requires InitialState(config, initial, toDay).Some?
    requires forall j :: 0 <= j < |config| ==> config[j].name != key
    ensures CM.Lookup(InitialState(config, initial, toDay).value.data, key) == CM.Missing
  {
    if config != [] {
      var front := config[..|config| - 1];
      assert forall j :: 0 <= j < |front| ==> front[j] == config[j];
      UnconfiguredKeyMissing(front, initial, toDay, key);
    }
  }

  /** Once a step throws, the whole initialisation does. */
  lemma {:induction false} NoneStaysNone(config: seq<CM.FormField>, n: nat, initial: Option<map<string, Json>>, toDay: Json -> Option<string>)
    requires n <= |config|
    requires InitialState(config[..n], initial, toDay).None?
    ensures InitialState(config, initial, toDay).None?
  {
    if n < |config| {
      var front := config[..|config| - 1];
      assert front[..n] == config[..n];
      NoneStaysNone(front, n, initial, toDay);
    } else {
      assert config[..n] == config;
    }
  }

  /** Every multi-file field starts with an empty accumulator, and the
      accumulator holds nothing else. */
  lemma {:induction false} AccumulatorStartsEmpty(config: seq<CM.FormField>, initial: Option<map<string, Json>>, toDay: Json -> Option<string>)
    requires InitialState(config, initial, toDay).Some?
    ensures var st := InitialState(config, initial, toDay).value;
            && (forall f :: f in config && f.kind == "file-multiple" ==> f.name in st.accumulator && st.accumulator[f.name] == [])
            && (forall k :: k in st.accumulator ==> st.accumulator[k] == [])
  {
    if config != [] {
      var front := config[..|config| - 1];
      AccumulatorStartsEmpty(front, initial, toDay);
      assert forall f :: f in config ==> f in front || f == config[|config| - 1];
    }
  }

  /** The 'gallery' entry of the preview lists, when 'gallery' is a
      multi-file field and no other field bears that name. */
  lemma {:induction false} GalleryStartsFromItem(config: seq<CM.FormField>, initial: Option<map<string, Json>>, toDay: Json -> Option<string>)
    requires InitialState(config, initial, toDay).Some?
    requires exists f :: f in config && f.name == "gallery"
    requires forall f :: f in config && f.name == "gallery" ==> f.kind == "file-multiple"
    ensures var st := InitialState(config, initial, toDay).value;
            && "gallery" in st.galleries && st.galleries["gallery"] == InitialGallery("gallery", initial)
            && "gallery" in st.accumulator && st.accumulator["gallery"] == []
  {
    var front := config[..|config| - 1];
    var last := config[|config| - 1];
    assert forall f :: f in config ==> f in front || f == last;
    if last.name != "gallery" {
      GalleryStartsFromItem(front, initial, toDay);
    }
  }

  /** Editing an item whose stored gallery holds an image: the preview list
      starts with that image while the file accumulator starts empty, so
      the two lists are not aligned index by index. */
  lemma EditedGalleryMisaligned(config: seq<CM.FormField>, item: map<string, Json>, toDay: Json -> Option<string>, url: string)
    requires InitialState(config, Some(item), toDay).Some?
    requires exists f :: f in config && f.name == "gallery"
    requires forall f :: f in config && f.name == "gallery" ==> f.kind == "file-multiple"
    requires "gallery" in item && item["gallery"].JArray? && JString(url) in item["gallery"].items && url != []
    ensures var st := InitialState(config, Some(item), toDay).value;
            && "gallery" in st.galleries && JString(url) in st.galleries["gallery"]
            && "gallery" in st.accumulator && st.accumulator["gallery"] == []
  {
    GalleryStartsFromItem(config, Some(item), toDay);
    StringImageKept(item, url);
  }

  /** A non-empty URL stored as a string in the item's gallery keeps its
      place among the gallery previews. */
  lemma StringImageKept(item: map<string, Json>, url: string)
    requires "gallery" in item && item["gallery"].JArray? && JString(url) in item["gallery"].items && url != []
    ensures JString(url) in InitialGallery("gallery", Some(item))
  {
    var items := item["gallery"].items;
    assert Get(Some(item), "gallery") == Some(JArray(items));
    var i :| 0 <= i < |items| && items[i] == JString(url);
    assert Preview(items[i]) == Some(JString(url));
  }

  /** What a change event carries for a text field or a single-file field. */
  datatype Change = TextChange(text: string) | FileChange(file: Option<string>)

  /** `handleChange` for a text or single-file input: the field takes the
      new value (a missing file clears it) and a chosen file gets a preview;
      every other field keeps its value. */
  function HandleChange(st: FormState, name: string, change: Change, objectUrl: string -> string): (r: FormState)
    ensures CM.Lookup(r.data, name) == (match change
                                       case TextChange(t) => CM.Str(t)
                                       case FileChange(f) => if f.Some? then CM.Upload(f.value) else CM.Missing)
    ensures forall other :: other != name ==> CM.Lookup(r.data, other) == CM.Lookup(st.data, other)
    ensures change.FileChange? && change.file.Some? ==> r.previews == st.previews[name := Some(JString(objectUrl(change.file.value)))]
    ensures !(change.FileChange? && change.file.Some?) ==> r.previews == st.previews
    ensures r.galleries == st.galleries && r.accumulator == st.accumulator
  {
    var v := match change
             case TextChange(t) => CM.Str(t)
             case FileChange(f) => if f.Some? then CM.Upload(f.value) else CM.Missing;
    CM.LookupPutSame(st.data, name, v);
    assert forall other :: other != name ==> CM.Lookup(CM.Put(st.data, name, v), other) == CM.Lookup(st.data, other) by {
      forall other | other != name ensures CM.Lookup(CM.Put(st.data, name, v), other) == CM.Lookup(st.data, other) {
        CM.LookupPut(st.data, name, v, other);
      }
    }
    st.(data := CM.Put(st.data, name, v),
        previews := if change.FileChange? && change.file.Some? then st.previews[name := Some(JString(objectUrl(change.file.value)))]
                    else st.previews)
  }

  // ---------------------------------------------------------- gallery input

  /** `Array.prototype.splice(start, 1)` on a copy: a negative start counts
      from the end; a start past the end removes nothing. */
  function RemoveAt<T>(s: seq<T>, start: int): (r: seq<T>)
    ensures 0 <= start < |s| ==> r == s[..start] + s[start + 1..]
    ensures start >= |s| ==> r == s
    ensures |r| == if s == [] || start >= |s| then |s| else |s| - 1
  {
    var k := if start < 0 then (if |s| + start < 0 then 0 else |s| + start) else start;
    if k < |s| then s[..k] + s[k + 1..] else s
  }

  /** The previews of newly chosen files, one object URL each. */
  function ObjectUrls(files: seq<string>, objectUrl: string -> string): (r: seq<Json>)
    ensures |r| == |files|
    ensures forall i :: 0 <= i < |files| ==> r[i] == JString(objectUrl(files[i]))
  {
    seq(|files|, i requires 0 <= i < |files| => JString(objectUrl(files[i])))
  }

  function AsUploads(files: seq<string>): (r: seq<CM.Value>)
    ensures |r| == |files|
    ensures forall i :: 0 <= i < |files| ==> r[i] == CM.Upload(files[i])
  {
    seq(|files|, i requires 0 <= i < |files| => CM.Upload(files[i]))
  }

  /** A multi-file input: the accumulated files (`filesAccumulator`), the
      preview list (`multipleFiles`) and the form value (`formData`). */
  class GalleryInput {
    var files: seq<string>
    var previews: seq<Json>
    var value: CM.Value

    /** The field as initialised: no files, the stored gallery's previews. */
    constructor (initialPreviews: seq<Json>)
      ensures files == [] && previews == initialPreviews && value == CM.Uploads([])
    {
      files := [];
      previews := initialPreviews;
      value := CM.Uploads([]);
    }

    /** A selection: its files go after those already held, with one preview
      each; an empty selection changes nothing. */
    method AddFiles(chosen: seq<string>, objectUrl: string -> string)
      modifies this
      ensures chosen == [] ==> files == old(files) && previews == old(previews) && value == old(value)
      ensures chosen != [] ==> && files == old(files) + chosen
                               && previews == old(previews) + ObjectUrls(chosen, objectUrl)
                               && value == CM.Uploads(AsUploads(files))
    {
      if chosen == [] {
        return;
      }
      files := files + chosen;
      value := CM.Uploads(AsUploads(files));
      previews := previews + ObjectUrls(chosen, objectUrl);
    }

    /** `handleRemoveFile(index)`: drops that position from the files and
      from the previews alike. */
    method RemoveFile(index: int)
      modifies this
      ensures files == RemoveAt(old(files), index)
      ensures previews == RemoveAt(old(previews), index)
      ensures value == CM.Uploads(AsUploads(files))
    {
      files := RemoveAt(files, index);
      value := CM.Uploads(AsUploads(files));
      previews := RemoveAt(previews, index);
    }
  }

  /** For a new item the lists stay aligned: adding and removing keep one
      preview per file. */
  lemma AlignedStaysAligned<T, U>(files: seq<T>, previews: seq<U>, chosen: seq<T>, urls: seq<U>, index: int)
    requires |files| == |previews| && |chosen| == |urls|
    ensures |files + chosen| == |previews + urls|
    ensures |RemoveAt(files, index)| == |RemoveAt(previews, index)|
  {
  }

  /** After editing an item with stored images and choosing new files,
      removing the first preview (a stored image) removes the first new
      file instead. */
  lemma RemoveAfterEditMisaligned(stored: seq<Json>, chosen: seq<string>, objectUrl: string -> string)
    requires stored != [] && chosen != []
    ensures RemoveAt(stored + ObjectUrls(chosen, objectUrl), 0) == stored[1..] + ObjectUrls(chosen, objectUrl)
    ensures RemoveAt(chosen, 0) == chosen[1..]
  {
    assert (stored + ObjectUrls(chosen, objectUrl))[1..] == stored[1..] + ObjectUrls(chosen, objectUrl);
  }
}
