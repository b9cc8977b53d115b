/** The admin content manager
    (frontend/src/pages/admin-dashboard/components/ContentManagement.jsx):
    reading fetched lists, flattening the information groups, preparing an
    item for editing, turning the form's values into the multipart entries a
    submit sends, choosing between update and create, and the per-tab form
    configuration. */
module ContentManagement {
  import opened Wrappers
  import opened JsonValues
  import Text
  import InformationCenter

  // ---------------------------------------------------------------- fetch

  /** The `data` of a list response: a bare array, an object whose `data`
      may hold the array, or nothing usable. */
  datatype Payload<T> = Bare(items: seq<T>) | Enveloped(data: Option<seq<T>>) | Unusable

  /** The list a tab shows: the bare array, else the enveloped one, else []. */
  function FetchedList<T>(p: Payload<T>): (r: seq<T>)
    ensures p.Bare? ==> r == p.items
    ensures p.Enveloped? && p.data.Some? ==> r == p.data.value
    ensures p.Unusable? || (p.Enveloped? && p.data.None?) ==> r == []
  {
    match p
    case Bare(items) => items
    case Enveloped(data) => data.GetOr([])
    case Unusable => []
  }

  /** Both response shapes give the same list. */
  lemma EnvelopeIrrelevant<T>(items: seq<T>)
    ensures FetchedList(Bare(items)) == FetchedList(Enveloped(Some(items)))
  {
  }

  /** The information tab's `flatMap`: like the information-center page's
      flattening, except that a group without `items` throws (None), which
      the tab reports as a failed fetch. */
  function FlattenStrict(groups: seq<InformationCenter.Group>): (r: Option<seq<InformationCenter.Item>>)
    ensures r.Some? <==> forall i :: 0 <= i < |groups| ==> groups[i].items.Some?
  {
    if groups == [] then Some([])
    else
      var front := groups[..|groups| - 1];
      assert forall i :: 0 <= i < |front| ==> front[i] == groups[i];
      match FlattenStrict(front)
      case None => None
      case Some(f) =>
        if groups[|groups| - 1].items.None? then None
        else Some(f + InformationCenter.Tagged(groups[|groups| - 1]))
  }

  /** When every group has its items, the tab and the public page flatten
      alike. */
  lemma {:induction false} FlattenStrictAgrees(groups: seq<InformationCenter.Group>)
    requires forall i :: 0 <= i < |groups| ==> groups[i].items.Some?
    ensures FlattenStrict(groups) == Some(InformationCenter.Flattened(groups))
  {
    if groups != [] {
      var front := groups[..|groups| - 1];
      assert forall i :: 0 <= i < |front| ==> front[i] == groups[i];
      FlattenStrictAgrees(front);
    }
  }

  // ----------------------------------------------------------------- edit

  /** A field of a fetched item holds a truthy value. */
  predicate Has(item: map<string, Json>, key: string) {
    key in item && Truthy(item[key])
  }

  /** Both maps have the key, with the same value, or neither has it. */
  predicate SameAt(a: map<string, Json>, b: map<string, Json>, key: string) {
    (key in a <==> key in b) && (key in a ==> a[key] == b[key])
  }

  /** `handleEdit`: a copy of the item; on the media tab `type` is derived
      from `fileType`, and `mediaUrl` (and for videos `thumbnailUrl`) is
      filled from the stored path when missing. */
  function PrepareForEdit(item: map<string, Json>, tab: string): (r: map<string, Json>)
    ensures tab != "media" ==> r == item
    ensures tab == "media" ==> && ("fileType" in item && item["fileType"] == JString("document") ==> "type" in r && r["type"] == JString("News Article"))
                               && ("fileType" in item && item["fileType"] == JString("video") ==> "type" in r && r["type"] == JString("Documentary"))
                               && (!Has(item, "mediaUrl") && Has(item, "filePath") ==> "mediaUrl" in r && r["mediaUrl"] == item["filePath"])
                               && ("fileType" in item && item["fileType"] == JString("video") && !Has(item, "thumbnailUrl") && Has(item, "thumbnailPath")
                                   ==> "thumbnailUrl" in r && r["thumbnailUrl"] == item["thumbnailPath"])
    ensures tab == "media" && !("fileType" in item && item["fileType"] in {JString("document"), JString("video")})
            ==> SameAt(r, item, "type")
    ensures tab == "media" && !(!Has(item, "mediaUrl") && Has(item, "filePath")) ==> SameAt(r, item, "mediaUrl")
    ensures tab == "media" && !("fileType" in item && item["fileType"] == JString("video") && !Has(item, "thumbnailUrl") && Has(item, "thumbnailPath"))
            ==> SameAt(r, item, "thumbnailUrl")
    ensures forall k :: k in item && k !in {"type", "mediaUrl", "thumbnailUrl"} ==> k in r && r[k] == item[k]
    ensures forall k :: k in r ==> k in item || k in {"type", "mediaUrl", "thumbnailUrl"}
  {
    if tab != "media" then item
    else
      var fileType := if "fileType" in item then Some(item["fileType"]) else None;
      var a := if fileType == Some(JString("document")) then item["type" := JString("News Article")]
               else if fileType == Some(JString("video")) then item["type" := JString("Documentary")]
               else item;
      var b := if !Has(a, "mediaUrl") && Has(a, "filePath") then a["mediaUrl" := a["filePath"]] else a;
      if fileType == Some(JString("video")) && !Has(b, "thumbnailUrl") && Has(b, "thumbnailPath")
      then b["thumbnailUrl" := b["thumbnailPath"]] else b
  }

  /** Preparing an already prepared item changes nothing more. */
  lemma PrepareForEditIdempotent(item: map<string, Json>, tab: string)
    ensures PrepareForEdit(PrepareForEdit(item, tab), tab) == PrepareForEdit(item, tab)
  {
  }

  // --------------------------------------------------------------- submit

  /** A value held by the form: null/undefined, a string, one file, a list
      of values (the multi-file fields), or another value copied from the
      item being edited. */
  datatype Value = Missing | Str(s: string) | Upload(file: string) | Uploads(items: seq<Value>) | Data(j: Json)

  predicate IsTruthy(v: Value) {
    match v
    case Missing => false
    case Str(s) => s != []
    case Data(j) => Truthy(j)
    case _ => true
  }

  /** An image already stored, as `existingGallery` lists it. */
  datatype ExistingImage = ExistingImage(url: string, publicId: string)

  /** What one multipart entry carries: a form value, or the JSON list of
      kept gallery images. */
  datatype Sent = Plain(v: Value) | Images(images: seq<ExistingImage>)

  type Fields = seq<(string, Value)>
  type Entries = seq<(string, Sent)>

  const FileFields: seq<string> := ["mediafile", "photo", "image", "coverImage", "imageUrl", "photoUrl"]
  const GalleryFlags: set<string> := {"gallery", "replaceGallery", "clearGallery", "existingGallery"}
  const True: Value := Str("true")

  predicate HasKey(fields: Fields, key: string) {
    exists e :: e in fields && e.0 == key
  }

  /** `formData[key]`: the value under the key, `Missing` when absent. */
  function Lookup(fields: Fields, key: string): (r: Value)
    ensures r != Missing ==> (key, r) in fields
  {
    if fields == [] then Missing
    else if fields[0].0 == key then fields[0].1
    else Lookup(fields[1..], key)
  }

  /** A key no entry carries reads as undefined. */
  lemma {:induction false} LookupAbsent(fields: Fields, key: string)
    requires forall e :: e in fields ==> e.0 != key
    ensures Lookup(fields, key) == Missing
  {
    if fields != [] {
      assert fields[0] in fields;
      assert forall e :: e in fields[1..] ==> e in fields;
      LookupAbsent(fields[1..], key);
    }
  }

  /** The first entry carrying the key gives its value. */
  lemma {:induction false} LookupFirst(fields: Fields, key: string, i: nat)
    requires i < |fields| && fields[i].0 == key
    requires forall j :: 0 <= j < i ==> fields[j].0 != key
    ensures Lookup(fields, key) == fields[i].1
  {
    if i > 0 {
      LookupFirst(fields[1..], key, i - 1);
    }
  }

  /** `delete formData[key]`. */
  function Remove(fields: Fields, key: string): (r: Fields)
    ensures forall e :: e in r <==> e in fields && e.0 != key
  {
    if fields == [] then []
    else (if fields[0].0 == key then [] else [fields[0]]) + Remove(fields[1..], key)
  }

  /** `formData[key] = v`: overwritten in place, or appended when new. */
  function Put(fields: Fields, key: string, v: Value): (r: Fields)
    ensures (key, v) in r
    ensures forall e :: e in r && e.0 != key ==> e in fields
    ensures forall e :: e in fields && e.0 != key ==> e in r
  {
    if fields == [] then [(key, v)]
    else if fields[0].0 == key then [(key, v)] + fields[1..]
    else [fields[0]] + Put(fields[1..], key, v)
  }

  /** After `delete formData[key]` the key reads as undefined. */
  lemma LookupRemoveSame(fields: Fields, key: string)
    ensures Lookup(Remove(fields, key), key) == Missing
  {
    LookupAbsent(Remove(fields, key), key);
  }

  lemma {:induction false} LookupRemove(fields: Fields, gone: string, key: string)
    requires gone != key
    ensures Lookup(Remove(fields, gone), key) == Lookup(fields, key)
  {
    if fields != [] {
      var tail := Remove(fields[1..], gone);
      LookupRemove(fields[1..], gone, key);
      if fields[0].0 == gone {
        assert Remove(fields, gone) == tail;
      } else {
        var r := [fields[0]] + tail;
        assert Remove(fields, gone) == r;
        assert r[0] == fields[0] && r[1..] == tail;
      }
    }
  }

  /** Reading back a key just written gives the written value. */
  lemma {:induction false} LookupPutSame(fields: Fields, key: string, v: Value)
    ensures Lookup(Put(fields, key, v), key) == v
  {
    if fields != [] && fields[0].0 != key {
      LookupPutSame(fields[1..], key, v);
      assert Put(fields, key, v)[1..] == Put(fields[1..], key, v);
    }
  }

  lemma {:induction false} LookupPut(fields: Fields, key: string, v: Value, other: string)
    requires key != other
    ensures Lookup(Put(fields, key, v), other) == Lookup(fields, other)
  {
    if fields != [] && fields[0].0 != key {
      LookupPut(fields[1..], key, v, other);
      assert Put(fields, key, v)[1..] == Put(fields[1..], key, v);
    }
  }

  /** The file fields an edit leaves out: present in the form but falsy. */
  function SkipList(fields: Fields, editing: bool): (r: seq<string>)
    ensures forall k :: k in r ==> k in FileFields
    ensures forall k :: k in r <==> editing && k in FileFields && HasKey(fields, k) && !IsTruthy(Lookup(fields, k))
  {
    if editing then SkipAmong(FileFields, fields) else []
  }

  function SkipAmong(names: seq<string>, fields: Fields): (r: seq<string>)
    ensures forall k :: k in r ==> k in names
    ensures forall k :: k in r <==> k in names && HasKey(fields, k) && !IsTruthy(Lookup(fields, k))
  {
    if names == [] then []
    else SkipAmong(names[..|names| - 1], fields)
         + (var n := names[|names| - 1]; if HasKey(fields, n) && !IsTruthy(Lookup(fields, n)) then [n] else [])
  }

  /** `galleryFiles.length`: strings and lists have one, a single file has
      none (undefined). */
  function Length(v: Value): Option<nat> {
    match v
    case Str(s) => Some(|s|)
    case Uploads(items) => Some(|items|)
    case Data(JString(s)) => Some(|s|)
    case Data(JArray(items)) => Some(|items|)
    case _ => None
  }

  /** One 'gallery' entry per file in the list, in order. */
  function GalleryFiles(items: seq<Value>): (r: Entries)
    ensures forall e :: e in r ==> e.0 == "gallery" && e.1.Plain? && e.1.v.Upload?
    ensures forall v :: v in items && v.Upload? ==> ("gallery", Plain(v)) in r
    ensures forall e :: e in r ==> e.1.v in items
    ensures |items| == 1 ==> r == if items[0].Upload? then [("gallery", Plain(items[0]))] else []
  {
    if items == [] then []
    else GalleryFiles(items[..|items| - 1])
         + (if items[|items| - 1].Upload? then [("gallery", Plain(items[|items| - 1]))] else [])
  }

  /** The entries for a concatenation are those of each part, in order;
      with the one-item case this fixes `GalleryFiles` on every list. */
  lemma {:induction false} GalleryFilesAppend(a: seq<Value>, b: seq<Value>)
    ensures GalleryFiles(a + b) == GalleryFiles(a) + GalleryFiles(b)
    decreases |b|
  {
    if b == [] {
      assert a + b == a;
    } else {
      assert (a + b)[..|a + b| - 1] == a + b[..|b| - 1];
      GalleryFilesAppend(a, b[..|b| - 1]);
    }
  }

  /** `galleryFiles && galleryFiles.length > 0`. */
  predicate HasGalleryFiles(gallery: Value) {
    IsTruthy(gallery) && Length(gallery).Some? && Length(gallery).value > 0
  }

  /** The stored images among the previews: every URL not starting with
      'blob:', with its public id. */
  function Existing(previews: seq<string>): (r: seq<ExistingImage>)
    ensures forall x :: x in r ==> !Text.StartsWith(x.url, "blob:") && x.publicId == Text.PublicIdOf(x.url) && x.url in previews
    ensures forall u :: u in previews && !Text.StartsWith(u, "blob:") ==> ExistingImage(u, Text.PublicIdOf(u)) in r
    ensures |previews| == 1 ==>
              r == if Text.StartsWith(previews[0], "blob:") then [] else [ExistingImage(previews[0], Text.PublicIdOf(previews[0]))]
  {
    if previews == [] then []
    else (if Text.StartsWith(previews[0], "blob:") then [] else [ExistingImage(previews[0], Text.PublicIdOf(previews[0]))])
         + Existing(previews[1..])
  }

  /** The images of a concatenation are those of each part, in order; with
      the one-preview case this fixes `Existing` on every list. */
  lemma {:induction false} ExistingAppend(a: seq<string>, b: seq<string>)
    ensures Existing(a + b) == Existing(a) + Existing(b)
  {
    if a != [] {
      assert (a + b)[0] == a[0] && (a + b)[1..] == a[1..] + b;
      ExistingAppend(a[1..], b);
      Text.ConcatAssoc(if Text.StartsWith(a[0], "blob:") then [] else [ExistingImage(a[0], Text.PublicIdOf(a[0]))],
                       Existing(a[1..]), Existing(b));
    } else {
      assert a + b == b;
    }
  }

  /** The gallery entries a submit sends, from the form's `gallery` value and
      the preview list the form passes along. */
  function GalleryEntries(gallery: Value, previews: Option<seq<string>>, editing: bool): (r: Entries)
    ensures HasGalleryFiles(gallery) ==>
              r == (if gallery.Uploads? then GalleryFiles(gallery.items) else [])
                   + (if editing then [("replaceGallery", Plain(True))] else [])
    ensures !HasGalleryFiles(gallery) && editing && previews == Some([]) ==> r == [("clearGallery", Plain(True))]
    ensures !HasGalleryFiles(gallery) && editing && previews.Some? && previews.value != [] && Existing(previews.value) != [] ==>
              r == [("existingGallery", Images(Existing(previews.value)))]
    ensures !HasGalleryFiles(gallery) && editing && previews.Some? && previews.value != [] && Existing(previews.value) == [] ==>
              r == [("replaceGallery", Plain(True))]
    ensures !HasGalleryFiles(gallery) && (!editing || previews.None?) ==> r == []
    ensures forall e :: e in r ==> e.0 in GalleryFlags
    ensures forall e :: e in r && e.0 == "gallery" ==> e.1.Plain? && e.1.v.Upload?
    ensures !gallery.Uploads? ==> forall e :: e in r ==> e.0 != "gallery"
    ensures !editing ==> forall e :: e in r ==> e.0 == "gallery"
  {
    if HasGalleryFiles(gallery) then
      (if gallery.Uploads? then GalleryFiles(gallery.items) else [])
      + (if editing then [("replaceGallery", Plain(True))] else [])
    else if !editing || previews.None? then []
    else if previews.value == [] then [("clearGallery", Plain(True))]
    else
      var kept := Existing(previews.value);
      if kept != [] then [("existingGallery", Images(kept))] else [("replaceGallery", Plain(True))]
  }

  /** The form values after the date conversion and the title-to-name
      rename (programs and projects, when `name` is not set). `toIso` is the
      ISO string of a parseable date. */
  function Normalised(fields: Fields, tab: string, toIso: string -> Option<string>): (r: Fields)
    ensures var d := Lookup(fields, "expectedStartDate");
      Lookup(r, "expectedStartDate") == if d.Str? && d.s != [] && toIso(d.s).Some? then Str(toIso(d.s).value) else d
    ensures Renames(fields, tab) ==> Lookup(r, "name") == Lookup(fields, "title") && Lookup(r, "title") == Missing
    ensures !Renames(fields, tab) ==> Lookup(r, "name") == Lookup(fields, "name") && Lookup(r, "title") == Lookup(fields, "title")
  {
    var dated := Dated(fields, toIso);
    assert Renames(dated, tab) == Renames(fields, tab);
    RenameTitle(dated, tab)
  }

  /** The date step: a set `expectedStartDate` that parses becomes its ISO
      string; nothing else changes. */
  function Dated(fields: Fields, toIso: string -> Option<string>): (r: Fields)
    ensures var d := Lookup(fields, "expectedStartDate");
      Lookup(r, "expectedStartDate") == if d.Str? && d.s != [] && toIso(d.s).Some? then Str(toIso(d.s).value) else d
    ensures forall k :: k != "expectedStartDate" ==> Lookup(r, k) == Lookup(fields, k)
  {
    var date := Lookup(fields, "expectedStartDate");
    if date.Str? && date.s != [] && toIso(date.s).Some? then
      var iso := Str(toIso(date.s).value);
      LookupPutSame(fields, "expectedStartDate", iso);
      assert forall k :: k != "expectedStartDate" ==> Lookup(Put(fields, "expectedStartDate", iso), k) == Lookup(fields, k) by {
        forall k | k != "expectedStartDate" ensures Lookup(Put(fields, "expectedStartDate", iso), k) == Lookup(fields, k) { LookupPut(fields, "expectedStartDate", iso, k); }
      }
      Put(fields, "expectedStartDate", iso)
    else fields
  }

  /** The rename step: for programs and projects a truthy title with no
      truthy name moves to `name`; every other key keeps its value. */
  function RenameTitle(fields: Fields, tab: string): (r: Fields)
    ensures Renames(fields, tab) ==> Lookup(r, "name") == Lookup(fields, "title") && Lookup(r, "title") == Missing
    ensures !Renames(fields, tab) ==> r == fields
    ensures forall k :: k != "name" && k != "title" ==> Lookup(r, k) == Lookup(fields, k)
  {
    if Renames(fields, tab) then
      var title := Lookup(fields, "title");
      var named := Put(fields, "name", title);
      LookupPutSame(fields, "name", title);
      LookupRemove(named, "title", "name");
      LookupRemoveSame(named, "title");
      assert forall k :: k != "name" && k != "title" ==> Lookup(Remove(named, "title"), k) == Lookup(fields, k) by {
        forall k | k != "name" && k != "title" ensures Lookup(Remove(named, "title"), k) == Lookup(fields, k) {
          LookupPut(fields, "name", title, k);
          LookupRemove(named, "title", k);
        }
      }
      Remove(named, "title")
    else fields
  }

  /** The rename applies: programs and projects with a truthy title and no
      truthy name. */
  predicate Renames(fields: Fields, tab: string) {
    (tab == "programs" || tab == "projects") && IsTruthy(Lookup(fields, "title")) && !IsTruthy(Lookup(fields, "name"))
  }

  /** The entries of the remaining fields: every non-null value, in key
      order, except the skipped file fields. */
  function FieldEntries(fields: Fields, skip: seq<string>): (r: Entries)
    ensures forall e :: e in r ==> e.0 !in skip && e.1.Plain? && e.1.v != Missing && (e.0, e.1.v) in fields
  {
    if fields == [] then []
    else
      var f := fields[|fields| - 1];
      FieldEntries(fields[..|fields| - 1], skip) + (if f.0 !in skip && f.1 != Missing then [(f.0, Plain(f.1))] else [])
  }

  /** Every set value whose key is not skipped is sent. */
  lemma {:induction false} FieldEntriesComplete(fields: Fields, skip: seq<string>, key: string, v: Value)
    requires (key, v) in fields && key !in skip && v != Missing
    ensures (key, Plain(v)) in FieldEntries(fields, skip)
  {
    var front := fields[..|fields| - 1];
    if (key, v) != fields[|fields| - 1] {
      assert (key, v) in front by {
        assert fields == front + [fields[|fields| - 1]];
      }
      FieldEntriesComplete(front, skip, key, v);
    }
  }

  /** Everything a submit appends, in order: the gallery entries, then the
      remaining fields. After the gallery part nothing is sent under
      'gallery', no empty file field of an edit is sent, and every entry is a
      plain value that is defined. */
  function Submission(fields: Fields, previews: Option<seq<string>>, editing: bool, tab: string,
                      toIso: string -> Option<string>): (r: Entries)
    ensures var g := GalleryEntries(Lookup(fields, "gallery"), previews, editing);
            |g| <= |r| && r[..|g|] == g
            && forall e :: e in r[|g|..] ==>
                 e.0 != "gallery" && e.0 !in SkipList(fields, editing) && e.1.Plain? && e.1.v != Missing
  {
    var g := GalleryEntries(Lookup(fields, "gallery"), previews, editing);
    var values := Normalised(Remove(fields, "gallery"), tab, toIso);
    var rest := FieldEntries(values, SkipList(fields, editing));
    NormalisedLacksGallery(fields, tab, toIso);
    forall e | e in rest ensures e.0 != "gallery" {
      assert (e.0, e.1.v) in values;
    }
    assert (g + rest)[|g|..] == rest;
    g + rest
  }

  /** The `fileFields.forEach` loop of an edit: collects the file fields
      present but empty. */
  method CollectSkipList(fields: Fields, editing: bool) returns (skip: seq<string>)
    ensures skip == SkipList(fields, editing)
  {
    skip := [];
    if editing {
      for i := 0 to |FileFields|
        invariant skip == SkipAmong(FileFields[..i], fields)
      {
        assert FileFields[..i + 1][..i] == FileFields[..i];
        var f := FileFields[i];
        if HasKey(fields, f) && !IsTruthy(Lookup(fields, f)) {
          skip := skip + [f];
        }
      }
      assert FileFields[..|FileFields|] == FileFields;
    }
  }

  /** The gallery loop: appends each file of the list under 'gallery'. */
  method AppendGalleryFiles(items: seq<Value>) returns (sent: Entries)
    ensures sent == GalleryFiles(items)
  {
    sent := [];
    for i := 0 to |items|
      invariant sent == GalleryFiles(items[..i])
    {
      assert items[..i + 1][..i] == items[..i];
      if items[i].Upload? {
        sent := sent + [("gallery", Plain(items[i]))];
      }
    }
    assert items[..|items|] == items;
  }

  /** The `Object.keys(formData).forEach` loop: appends every set value
      whose key is not skipped. */
  method AppendFields(values: Fields, skip: seq<string>) returns (sent: Entries)
    ensures sent == FieldEntries(values, skip)
  {
    sent := [];
    for i := 0 to |values|
      invariant sent == FieldEntries(values[..i], skip)
    {
      assert values[..i + 1][..i] == values[..i];
      var (k, v) := values[i];
      if k !in skip && v != Missing {
        sent := sent + [(k, Plain(v))];
      }
    }
    assert values[..|values|] == values;
  }

  /** `handleFormSubmit` on the form's plain values: the multipart entries,
      gallery first, then the remaining fields. The form object it is handed
      is the dynamic form's own state, edited in place: `edited` is that
      object afterwards, without its gallery, with the date converted and
      the title moved to `name`. */
  method PrepareSubmission(fields: Fields, previews: Option<seq<string>>, editing: bool, tab: string,
                           toIso: string -> Option<string>) returns (sent: Entries, edited: Fields)
    ensures sent == Submission(fields, previews, editing, tab, toIso)
    ensures edited == Normalised(Remove(fields, "gallery"), tab, toIso)
    ensures Lookup(edited, "gallery") == Missing
  {
    var skip := CollectSkipList(fields, editing);
    sent := AppendGallery(Lookup(fields, "gallery"), previews, editing);
    edited := Normalised(Remove(fields, "gallery"), tab, toIso);
    var entries := AppendFields(edited, skip);
    sent := sent + entries;
    NormalisedLacksGallery(fields, tab, toIso);
    LookupAbsent(edited, "gallery");
  }

  /** A second submit of the same form object, after a failed request kept
      the form open, starts from the edited object: its gallery is gone, so
      no chosen file is sent again. */
  lemma RetrySendsNoGalleryFiles(fields: Fields, previews: Option<seq<string>>, editing: bool, tab: string,
                                 toIso: string -> Option<string>)
    ensures var edited := Normalised(Remove(fields, "gallery"), tab, toIso);
            forall e :: e in Submission(edited, previews, editing, tab, toIso) ==> e.0 != "gallery"
  {
    var edited := Normalised(Remove(fields, "gallery"), tab, toIso);
    NormalisedLacksGallery(fields, tab, toIso);
    LookupAbsent(edited, "gallery");
    var values := Normalised(Remove(edited, "gallery"), tab, toIso);
    NormalisedLacksGallery(edited, tab, toIso);
    forall e | e in FieldEntries(values, SkipList(edited, editing)) ensures e.0 != "gallery" {
      assert (e.0, e.1.v) in values;
    }
  }

  /** The gallery part of `handleFormSubmit`: the chosen files and the
      replace flag, or else the flags and the kept images of an edit. */
  method AppendGallery(gallery: Value, previews: Option<seq<string>>, editing: bool) returns (sent: Entries)
    ensures sent == GalleryEntries(gallery, previews, editing)
  {
    if HasGalleryFiles(gallery) {
      sent := [];
      if gallery.Uploads? {
        sent := AppendGalleryFiles(gallery.items);
      }
      if editing {
        sent := sent + [("replaceGallery", Plain(True))];
      }
    } else if editing && previews.Some? {
      if previews.value == [] {
        sent := [("clearGallery", Plain(True))];
      } else {
        var kept := Existing(previews.value);
        if kept != [] {
          sent := [("existingGallery", Images(kept))];
        } else {
          sent := [("replaceGallery", Plain(True))];
        }
      }
    } else {
      sent := [];
    }
  }

  /** Null and undefined values are never sent. */
  lemma NoMissingSent(fields: Fields, previews: Option<seq<string>>, editing: bool, tab: string, toIso: string -> Option<string>)
    ensures forall e :: e in Submission(fields, previews, editing, tab, toIso) && e.1.Plain? ==> e.1.v != Missing
  {
  }

  /** When editing, a file field left empty is not sent. */
  lemma SkippedFileFieldsNotSent(fields: Fields, previews: Option<seq<string>>, tab: string, toIso: string -> Option<string>, k: string)
    requires k in FileFields && HasKey(fields, k) && !IsTruthy(Lookup(fields, k))
    ensures forall e :: e in Submission(fields, previews, true, tab, toIso) ==> e.0 != k
  {
    assert k !in GalleryFlags;
  }

  /** The values sent besides the gallery entries never carry the key
      'gallery': it is deleted before the date and rename steps, which do
      not write it. */
  lemma NormalisedLacksGallery(fields: Fields, tab: string, toIso: string -> Option<string>)
    ensures forall e :: e in Normalised(Remove(fields, "gallery"), tab, toIso) ==> e.0 != "gallery"
  {
  }

  /** On the media tab the gallery is a text area, so whatever URLs were
      typed there are never sent under 'gallery'. */
  lemma TypedGalleryNeverSent(fields: Fields, s: string, previews: Option<seq<string>>, editing: bool,
                              toIso: string -> Option<string>)
    requires Lookup(fields, "gallery") == Str(s)
    ensures forall e :: e in Submission(fields, previews, editing, "media", toIso) ==> e.0 != "gallery"
  {
    var values := Normalised(Remove(fields, "gallery"), "media", toIso);
    NormalisedLacksGallery(fields, "media", toIso);
    forall e | e in FieldEntries(values, SkipList(fields, editing)) ensures e.0 != "gallery" {
      assert (e.0, e.1.v) in values;
    }
  }

  /** The rename step on the form values: `name` takes the title and
      `title` is gone. */
  lemma RenamedValues(rest: Fields, tab: string, toIso: string -> Option<string>)
    requires tab == "programs" || tab == "projects"
    requires IsTruthy(Lookup(rest, "title")) && !IsTruthy(Lookup(rest, "name"))
    ensures ("name", Lookup(rest, "title")) in Normalised(rest, tab, toIso)
    ensures forall e :: e in Normalised(rest, tab, toIso) ==> e.0 != "title"
  {
    var date := Lookup(rest, "expectedStartDate");
    if date.Str? && date.s != [] && toIso(date.s).Some? {
      var iso := Str(toIso(date.s).value);
      LookupPut(rest, "expectedStartDate", iso, "title");
      LookupPut(rest, "expectedStartDate", iso, "name");
    }
  }

  /** A key that is no gallery flag and that the normalised values lack is
      never sent. */
  lemma SubmissionLacks(fields: Fields, previews: Option<seq<string>>, editing: bool, tab: string,
                        toIso: string -> Option<string>, key: string)
    requires key !in GalleryFlags
    requires forall e :: e in Normalised(Remove(fields, "gallery"), tab, toIso) ==> e.0 != key
    ensures forall e :: e in Submission(fields, previews, editing, tab, toIso) ==> e.0 != key
  {
    var values := Normalised(Remove(fields, "gallery"), tab, toIso);
    forall e | e in FieldEntries(values, SkipList(fields, editing)) ensures e.0 != key {
      assert (e.0, e.1.v) in values;
    }
  }

  lemma NameIsNoFileField()
    ensures "name" !in FileFields
  {
  }

  /** For programs and projects a set title goes out as `name` when no name
      is set. */
  lemma TitleSentAsName(fields: Fields, previews: Option<seq<string>>, editing: bool, tab: string, toIso: string -> Option<string>)
    requires tab == "programs" || tab == "projects"
    requires IsTruthy(Lookup(fields, "title")) && !IsTruthy(Lookup(fields, "name"))
    ensures ("name", Plain(Lookup(fields, "title"))) in Submission(fields, previews, editing, tab, toIso)
  {
    var rest := Remove(fields, "gallery");
    LookupRemove(fields, "gallery", "title");
    LookupRemove(fields, "gallery", "name");
    RenamedValues(rest, tab, toIso);
    NameIsNoFileField();
    FieldEntriesComplete(Normalised(rest, tab, toIso), SkipList(fields, editing), "name", Lookup(fields, "title"));
  }

  /** Under the same conditions no `title` entry is sent. */
  lemma TitleNotSent(fields: Fields, previews: Option<seq<string>>, editing: bool, tab: string, toIso: string -> Option<string>)
    requires tab == "programs" || tab == "projects"
    requires IsTruthy(Lookup(fields, "title")) && !IsTruthy(Lookup(fields, "name"))
    ensures forall e :: e in Submission(fields, previews, editing, tab, toIso) ==> e.0 != "title"
  {
    var rest := Remove(fields, "gallery");
    LookupRemove(fields, "gallery", "title");
    LookupRemove(fields, "gallery", "name");
    RenamedValues(rest, tab, toIso);
    TitleIsNoGalleryFlag();
    SubmissionLacks(fields, previews, editing, tab, toIso, "title");
  }

  lemma TitleIsNoGalleryFlag()
    ensures "title" !in GalleryFlags
  {
  }

  // ------------------------------------------------------ delete and save

  /** A delete request is made only for an item with a truthy `_id`. */
  predicate DeleteAllowed(item: Option<map<string, Json>>) {
    item.Some? && Has(item.value, "_id")
  }

  /** A request to the content services. */
  datatype Request =
    | UpdateRequest(tab: string, id: Json)
    | CreateRequest(tab: string)
    | DeleteCall(tab: string, id: Json)
    | Rejected(message: string)

  /** The delete a confirmation sends: none without a truthy `_id`, and an
      unknown tab is rejected. */
  function DeleteRequest(item: Option<map<string, Json>>, tab: string): (r: Option<Request>)
    ensures r.None? <==> !DeleteAllowed(item)
    ensures r.Some? && tab in Tabs ==> r.value == DeleteCall(tab, item.value["_id"])
    ensures r.Some? && tab !in Tabs ==> r.value == Rejected("Invalid content type for delete operation")
  {
    if !DeleteAllowed(item) then None
    else if tab in Tabs then Some(DeleteCall(tab, item.value["_id"]))
    else Some(Rejected("Invalid content type for delete operation"))
  }

  const Tabs: seq<string> := ["media", "programs", "projects", "team", "information"]

  /** A submit updates when the current item has a truthy `_id`, and creates
      otherwise; an unknown tab is rejected. */
  function SubmitRequest(current: Option<map<string, Json>>, tab: string): (r: Request)
    ensures r.UpdateRequest? <==> DeleteAllowed(current) && tab in Tabs
    ensures r.UpdateRequest? ==> r.id == current.value["_id"] && r.tab == tab
    ensures r.CreateRequest? <==> !DeleteAllowed(current) && tab in Tabs
    ensures r.Rejected? <==> tab !in Tabs
  {
    if DeleteAllowed(current) then
      (if tab in Tabs then UpdateRequest(tab, current.value["_id"]) else Rejected("Invalid content type for update"))
    else if tab in Tabs then CreateRequest(tab) else Rejected("Invalid content type for create")
  }

  // ------------------------------------------------------------ form config

  /** One form field of the configuration. */
  datatype FormField = FormField(name: string, kind: string, required: bool, options: seq<string>)

  /** A new item must carry every file field except a video thumbnail; an
      edited one may leave them empty. */
  predicate FileRule(form: seq<FormField>, editing: bool) {
    forall f :: f in form ==>
      && (f.kind == "file" && f.name != "thumbnail" ==> f.required == !editing)
      && (f.name == "thumbnail" ==> !f.required)
  }

  /** `getFormConfig`: the fields of each tab's form; `editing` is whether an
      item is open for editing. */
  function FormConfig(tab: string, editing: bool): (r: seq<FormField>)
    ensures tab !in Tabs ==> r == []
    ensures FileRule(r, editing)
  {
    if tab == "media" then MediaForm(editing)
    else if tab == "programs" then ProgramsForm(editing)
    else if tab == "projects" then ProjectsForm(editing)
    else if tab == "team" then TeamForm(editing)
    else if tab == "information" then InformationForm(editing)
    else []
  }

  function MediaForm(editing: bool): (r: seq<FormField>)
    ensures FileRule(r, editing)
  {
    [
      FormField("title", "text", true, []),
      FormField("description", "textarea", true, []),
      FormField("type", "select", true, ["News Article", "Documentary", "Video Series"]),
      FormField("mediafile", "file", !editing, []),
      FormField("thumbnail", "file", false, []),
      FormField("gallery", "textarea", false, []),
      FormField("category", "text", false, []),
      FormField("uploadDate", "date", false, [])
    ]
  }

  function ProgramsForm(editing: bool): (r: seq<FormField>)
    ensures FileRule(r, editing)
  {
    [
      FormField("name", "text", true, []),
      FormField("description", "textarea", true, []),
      FormField("beneficiaries", "text", false, []),
      FormField("programDuration", "text", false, []),
      FormField("coverImage", "file", !editing, []),
      FormField("gallery", "file-multiple", false, []),
      FormField("status", "select", true, ["Ongoing", "Completed", "Upcoming", "Draft"]),
      FormField("uploadDate", "date", false, [])
    ]
  }

  function ProjectsForm(editing: bool): (r: seq<FormField>)
    ensures FileRule(r, editing)
  {
    [
      FormField("name", "text", true, []),
      FormField("description", "textarea", true, []),
      FormField("budget", "text", true, []),
      FormField("targetFarms", "text", true, []),
      FormField("coverImage", "file", !editing, []),
      FormField("gallery", "file-multiple", false, []),
      FormField("expectedStartDate", "date", false, []),
      FormField("location", "text", false, []),
      FormField("status", "select", true, ["Planned", "In Progress", "On Hold", "Completed", "Cancelled", "Draft"]),
      FormField("uploadDate", "date", false, [])
    ]
  }

  function TeamForm(editing: bool): (r: seq<FormField>)
    ensures FileRule(r, editing)
  {
    [
      FormField("name", "text", true, []),
      FormField("role", "text", true, []),
      FormField("description", "textarea", false, []),
      FormField("email", "email", false, []),
      FormField("phone", "text", false, []),
      FormField("photo", "file", !editing, [])
    ]
  }

  function InformationForm(editing: bool): (r: seq<FormField>)
    ensures FileRule(r, editing)
  {
    [
      FormField("groupTitle", "select", true, ["governmentSchemes", "agriculturalResources", "educationalMaterials", "newsUpdates"]),
      FormField("title", "text", true, []),
      FormField("description", "textarea", true, []),
      FormField("image", "file", !editing, []),
      FormField("category", "select", true, ["subsidy", "certification", "insurance", "seasonal", "sustainable", "weather"]),
      FormField("region", "select", true, ["national", "north", "south", "east", "west", "all"]),
      FormField("date", "date", true, []),
      FormField("engagementMetric", "number", false, []),
      FormField("fileType", "select", true, ["document", "image", "video"])
    ]
  }

  /** The media form's gallery is a text area: its value is a string. */
  lemma MediaGalleryIsText(editing: bool)
    ensures FormField("gallery", "textarea", false, []) in FormConfig("media", editing)
    ensures forall f :: f in FormConfig("media", editing) && f.name == "gallery" ==> f.kind == "textarea"
  {
  }

  /** The form decides "editing" by whether an item is open, the submit by
      whether it has a truthy `_id`: an open item without an id gets the
      edit form, whose file fields are optional, and is then created. */
  lemma EditFormWithoutIdCreates(current: map<string, Json>, tab: string)
    requires tab in Tabs && "_id" !in current
    ensures SubmitRequest(Some(current), tab) == CreateRequest(tab)
    ensures forall f :: f in FormConfig(tab, true) && f.kind == "file" ==> !f.required
  {
    assert FileRule(FormConfig(tab, true), true);
  }
}
