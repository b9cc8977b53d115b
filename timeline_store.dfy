/** The Timeline controller (server/controllers/timelineController.js) over
    an id-keyed collection: filtered listing, lookup, create, update and
    delete, with the gallery normalisation, the inline-image upload loop and
    the `isKeyMilestone` coercions. JSON.parse, date parsing and the storage
    upload are the parameters `parse`, `parseDate` and `upload`; storage
    destroy calls are best effort, so the model reports which public ids
    were sent to them. */
module TimelineController {
  import opened Wrappers
  import opened JsonValues
  import opened Http
  import opened TimelineSchema
  import Text
  import Listing

  const ServerError: string := "Server error"
  const MissingFields: string := "Missing required fields"
  const NotFound: string := "Timeline entry not found"

  function IdOf(t: Timeline): nat { t.id }
  function DateOf(t: Timeline): int { t.date }

  // -------------------------------------------------------- isKeyMilestone

  /** On create the flag is set only by the exact string 'true' or the
      boolean true. */
  function KeyMilestoneOnCreate(v: Option<Json>): (r: bool)
    ensures r <==> v == Some(JString("true")) || v == Some(JBool(true))
  {
    match v
    case Some(JString(s)) => s == "true"
    case Some(JBool(b)) => b
    case _ => false
  }

  /** On update a string is read case-insensitively ('true' in any case is
      true, every other string false); other values pass through. */
  function KeyMilestoneOnUpdate(v: Option<Json>): (r: Option<Json>)
    ensures v.Some? && v.value.JString? ==> r == Some(JBool(Text.Lower(v.value.s) == "true"))
    ensures !(v.Some? && v.value.JString?) ==> r == v
  {
    match v
    case Some(JString(s)) => Some(JBool(Text.Lower(s) == "true"))
    case _ => v
  }

  /** The two coercions disagree on 'True': create stores false, update true. */
  lemma KeyMilestoneCaseDiffers()
    ensures !KeyMilestoneOnCreate(Some(JString("True")))
    ensures KeyMilestoneOnUpdate(Some(JString("True"))) == Some(JBool(true))
  {
    assert Text.Lower("True") == "true" by {
      assert Text.LowerChar('T') == 't';
    }
  }

  // --------------------------------------------------------------- gallery

  /** The gallery built from uploaded files, one entry per file, in order. */
  function FilesGallery(files: seq<UploadedFile>): (r: seq<Json>)
    ensures |r| == |files|
    ensures forall i :: 0 <= i < |files| ==> r[i] == ImageEntry(files[i].path, files[i].filename, files[i].mimetype)
  {
    seq(|files|, i requires 0 <= i < |files| => ImageEntry(files[i].path, files[i].filename, files[i].mimetype))
  }

  /** One `galleryData` item: objects with a truthy `filePath` are kept,
      strings become image entries, other values are kept; reading
      `filePath` of null throws (None). */
  function NormaliseItem(item: Json): (r: Option<Json>)
    ensures r.None? <==> item == JNull
    ensures item.JString? ==> r == Some(ImageEntry(item.s, Text.PublicIdOf(item.s), "image"))
    ensures item != JNull && !item.JString? ==> r == Some(item)
  {
    if item == JNull then None
    else if FieldTruthy(item, "filePath") then Some(item)
    else if item.JString? then Some(ImageEntry(item.s, Text.PublicIdOf(item.s), "image"))
    else Some(item)
  }

  /** `items.map(NormaliseItem)`, which throws (None) on a null item. */
  function NormaliseGallery(items: seq<Json>): (r: Option<seq<Json>>)
    ensures r.None? <==> JNull in items
    ensures r.Some? ==> |r.value| == |items| && JNull !in r.value
    ensures r.Some? ==> forall i :: 0 <= i < |items| ==> r.value[i] == NormaliseItem(items[i]).value
  {
    if JNull in items then None
    else Some(seq(|items|, i requires 0 <= i < |items| => NormaliseItem(items[i]).value))
  }

  /** The gallery a create starts from. Files take precedence over
      `galleryData`; unparseable `galleryData` leaves the gallery empty; a
      null item leaves the parsed list unnormalised. */
  function CreateGallery(files: seq<UploadedFile>, galleryData: Option<string>,
                         parse: string -> Option<seq<Json>>): (r: seq<Json>)
    ensures files != [] ==> r == FilesGallery(files)
    ensures files == [] && !Given(galleryData) ==> r == []
    ensures files == [] && Given(galleryData) && parse(galleryData.value).None? ==> r == []
    ensures files == [] && Given(galleryData) && parse(galleryData.value).Some? ==>
              r == NormaliseGallery(parse(galleryData.value).value).GetOr(parse(galleryData.value).value)
  {
    if files != [] then FilesGallery(files)
    else if !Given(galleryData) then []
    else match parse(galleryData.value)
      case None => []
      case Some(items) =>
        match NormaliseGallery(items)
        case Some(g) => g
        case None => items
  }

  /** A create without files whose `galleryData` parses to a list of URL
      strings starts from one image entry per URL, in order, whose public id
      is the URL's last path segment without its extension. */
  lemma CreateGalleryOfUrls(galleryData: Option<string>, parse: string -> Option<seq<Json>>, urls: seq<string>)
    requires Given(galleryData)
    requires parse(galleryData.value) == Some(seq(|urls|, i requires 0 <= i < |urls| => JString(urls[i])))
    ensures var g := CreateGallery([], galleryData, parse);
      && |g| == |urls|
      && forall i :: 0 <= i < |urls| ==> g[i] == ImageEntry(urls[i], Text.PublicIdOf(urls[i]), "image")
  {
    var items := parse(galleryData.value).value;
    assert JNull !in items by {
      forall i | 0 <= i < |items| ensures items[i] != JNull { assert items[i] == JString(urls[i]); }
    }
    var g := NormaliseGallery(items).value;
    forall i | 0 <= i < |urls| ensures g[i] == ImageEntry(urls[i], Text.PublicIdOf(urls[i]), "image") {
      assert items[i] == JString(urls[i]);
    }
  }

  /** The gallery an update assigns, or None to leave it alone: a failed
      parse or a null item throws before the assignment. */
  function UpdateGallery(files: seq<UploadedFile>, galleryData: Option<string>,
                         parse: string -> Option<seq<Json>>): (r: Option<seq<Json>>)
    ensures files != [] ==> r == Some(FilesGallery(files))
    ensures files == [] && !Given(galleryData) ==> r.None?
    ensures files == [] && Given(galleryData) ==>
              r == (match parse(galleryData.value) case None => None case Some(items) => NormaliseGallery(items))
  {
    if files != [] then Some(FilesGallery(files))
    else if !Given(galleryData) then None
    else match parse(galleryData.value)
      case None => None
      case Some(items) => NormaliseGallery(items)
  }

  // ---------------------------------------------------------------- upload

  /** One turn of the upload loop: an entry whose `data` is a 'data:image'
      string is replaced by the uploaded image when the upload succeeds and
      kept when it fails; reading `data` of null, or calling `startsWith` on
      a truthy non-string, throws (None). */
  function UploadStep(item: Json, upload: string -> Option<(string, string)>): (r: Option<Json>)
    ensures r.None? <==> item == JNull || (FieldTruthy(item, "data") && !Field(item, "data").value.JString?)
    ensures r.Some? ==> r.value != JNull
    ensures r.Some? && !FieldTruthy(item, "data") ==> r.value == item
  {
    if item == JNull then None
    else if !FieldTruthy(item, "data") then Some(item)
    else match Field(item, "data").value
      case JString(d) =>
        if !Text.StartsWith(d, "data:image") then Some(item)
        else (match upload(d)
              case Some(res) => Some(ImageEntry(res.0, res.1, "image"))
              case None => Some(item))
      case _ => None
  }

  /** The gallery after the whole loop, or None when some turn throws. */
  function UploadAll(g: seq<Json>, upload: string -> Option<(string, string)>): (r: Option<seq<Json>>)
    ensures r.Some? <==> forall i :: 0 <= i < |g| ==> UploadStep(g[i], upload).Some?
    ensures r.Some? ==> |r.value| == |g|
    ensures r.Some? ==> forall i :: 0 <= i < |g| ==> r.value[i] == UploadStep(g[i], upload).value
    decreases |g|
  {
    if g == [] then Some([])
    else
      var front := g[..|g| - 1];
      assert forall i :: 0 <= i < |front| ==> front[i] == g[i];
      match UploadAll(front, upload)
      case None => None
      case Some(p) =>
        match UploadStep(g[|g| - 1], upload)
        case None => None
        case Some(x) => Some(p + [x])
  }

  /** A gallery that went through the loop holds no null. */
  lemma UploadAllNoNull(g: seq<Json>, upload: string -> Option<(string, string)>)
    requires UploadAll(g, upload).Some?
    ensures JNull !in UploadAll(g, upload).value
  {
    var r := UploadAll(g, upload).value;
    forall i | 0 <= i < |r| ensures r[i] != JNull {
      assert UploadStep(g[i], upload).Some?;
    }
  }

  /** The upload loop, overwriting entries of its copy of the gallery in
      place; None when a turn throws. */
  method UploadInlineImages(g: seq<Json>, upload: string -> Option<(string, string)>) returns (r: Option<seq<Json>>)
    ensures r == UploadAll(g, upload)
  {
    var gallery := g;
    var i := 0;
    while i < |gallery|
      invariant 0 <= i <= |g| && |gallery| == |g|
      invariant UploadAll(g[..i], upload).Some?
      invariant gallery[..i] == UploadAll(g[..i], upload).value
      invariant gallery[i..] == g[i..]
    {
      assert g[..i + 1][..i] == g[..i];
      var step := UploadStep(gallery[i], upload);
      if step.None? {
        assert g[i] == gallery[i];
        assert UploadStep(g[..i + 1][i], upload).None?;
        UploadAllPrefixFails(g, i + 1, upload);
        return None;
      }
      gallery := gallery[i := step.value];
      i := i + 1;
    }
    assert g[..i] == g;
    assert gallery[..i] == gallery;
    r := Some(gallery);
  }

  /** Once a prefix throws, the whole gallery does. */
  lemma UploadAllPrefixFails(g: seq<Json>, n: nat, upload: string -> Option<(string, string)>)
    requires n <= |g| && UploadAll(g[..n], upload).None?
    ensures UploadAll(g, upload).None?
  {
    var k :| 0 <= k < n && UploadStep(g[..n][k], upload).None?;
    assert g[..n][k] == g[k];
  }

  // ----------------------------------------------------------------- query

  /** An entry passes the `isKeyMilestone` query parameter: an empty or
      missing parameter filters nothing; otherwise the flag must equal
      (parameter == 'true'). */
  predicate Matches(keyMilestone: Option<string>, t: Timeline) {
    Given(keyMilestone) ==> t.isKeyMilestone == (keyMilestone.value == "true")
  }

  function Selected(items: map<nat, Timeline>, keyMilestone: Option<string>): (r: map<nat, Timeline>)
    ensures forall k :: k in r <==> k in items && Matches(keyMilestone, items[k])
    ensures forall k :: k in r ==> r[k] == items[k]
  {
    Listing.Where(items, (v: Timeline) => Matches(keyMilestone, v))
  }

  /** The body's `isKeyMilestone`, as the form sends it. */
  function FlagField(body: map<string, string>): (r: Option<Json>)
    ensures r.Some? <==> "isKeyMilestone" in body
  {
    if "isKeyMilestone" in body then Some(JString(body["isKeyMilestone"])) else None
  }

  /** The outcome of a create request on a fresh id. Missing title,
      description or date is answered 400; any later failure (a title or
      description that trims to nothing, a date that does not parse, a
      throwing upload turn) is caught and answered 500. */
  function CreateOutcome(id: nat, body: map<string, string>, files: seq<UploadedFile>,
                         parse: string -> Option<seq<Json>>, parseDate: string -> Option<int>,
                         upload: string -> Option<(string, string)>, now: int): (r: Reply<Timeline>)
    ensures !Given(BodyField(body, "title")) || !Given(BodyField(body, "description")) || !Given(BodyField(body, "date"))
            ==> r == Err(400, MissingFields)
    ensures r.Err? ==> r == Err(400, MissingFields) || r == Err(500, ServerError)
    ensures r.Ok? <==> && Given(BodyField(body, "title")) && Given(BodyField(body, "description")) && Given(BodyField(body, "date"))
                       && Text.Trim(body["title"]) != [] && Text.Trim(body["description"]) != []
                       && parseDate(body["date"]).Some?
                       && UploadAll(CreateGallery(files, BodyField(body, "galleryData"), parse), upload).Some?
    ensures r.Ok? ==> r.status == 201 && Conforms(r.data) && r.data.id == id && JNull !in r.data.gallery
  {
    var title, description, date := BodyField(body, "title"), BodyField(body, "description"), BodyField(body, "date");
    if !Given(title) || !Given(description) || !Given(date) then Err(400, MissingFields)
    else
      var uploaded := UploadAll(CreateGallery(files, BodyField(body, "galleryData"), parse), upload);
      if uploaded.None? then Err(500, ServerError)
      else
        UploadAllNoNull(CreateGallery(files, BodyField(body, "galleryData"), parse), upload);
        var entry := NewTimeline(id, title.value, description.value, parseDate(date.value), uploaded.value,
                                 KeyMilestoneOnCreate(FlagField(body)), BodyField(body, "impact").GetOr(""), now);
        if entry.None? then Err(500, ServerError) else Ok(201, entry.value)
  }

  /** What a created entry holds: the trimmed title and description, the
      parsed date, the coerced flag, the trimmed impact (empty when absent),
      the gallery after the upload loop, and `now` in both timestamps. */
  lemma CreatedEntry(id: nat, body: map<string, string>, files: seq<UploadedFile>,
                     parse: string -> Option<seq<Json>>, parseDate: string -> Option<int>,
                     upload: string -> Option<(string, string)>, now: int)
    requires CreateOutcome(id, body, files, parse, parseDate, upload, now).Ok?
    ensures var t := CreateOutcome(id, body, files, parse, parseDate, upload, now).data;
      && t.title == Text.Trim(body["title"]) && t.description == Text.Trim(body["description"])
      && t.date == parseDate(body["date"]).value
      && t.isKeyMilestone == KeyMilestoneOnCreate(FlagField(body))
      && t.impact == Text.Trim(BodyField(body, "impact").GetOr(""))
      && Some(t.gallery) == UploadAll(CreateGallery(files, BodyField(body, "galleryData"), parse), upload)
      && t.createdAt == now && t.updatedAt == now
  {
  }

  /** `achievement`, which the schema lacks, and every other unread body
      key leave a create unchanged. */
  lemma CreateIgnoresAchievement(id: nat, body: map<string, string>, key: string, v: string, files: seq<UploadedFile>,
                                 parse: string -> Option<seq<Json>>, parseDate: string -> Option<int>,
                                 upload: string -> Option<(string, string)>, now: int)
    requires key !in {"title", "description", "date", "isKeyMilestone", "impact", "galleryData"}
    ensures CreateOutcome(id, body[key := v], files, parse, parseDate, upload, now)
            == CreateOutcome(id, body, files, parse, parseDate, upload, now)
  {
    var b := body[key := v];
    assert BodyField(b, "title") == BodyField(body, "title");
    assert BodyField(b, "description") == BodyField(body, "description");
    assert BodyField(b, "date") == BodyField(body, "date");
    assert BodyField(b, "impact") == BodyField(body, "impact");
    assert BodyField(b, "galleryData") == BodyField(body, "galleryData");
    assert FlagField(b) == FlagField(body);
  }

  /** A create whose parsed `galleryData` holds a null is answered 500: the
      null survives the failed normalisation and the upload loop throws on
      it. */
  lemma NullGalleryItemFailsCreate(id: nat, body: map<string, string>, parse: string -> Option<seq<Json>>,
                                   parseDate: string -> Option<int>, upload: string -> Option<(string, string)>, now: int)
    requires Given(BodyField(body, "title")) && Given(BodyField(body, "description")) && Given(BodyField(body, "date"))
    requires Given(BodyField(body, "galleryData"))
    requires parse(body["galleryData"]).Some? && JNull in parse(body["galleryData"]).value
    ensures CreateOutcome(id, body, [], parse, parseDate, upload, now) == Err(500, ServerError)
  {
    var items := parse(body["galleryData"]).value;
    assert CreateGallery([], BodyField(body, "galleryData"), parse) == items;
    var k :| 0 <= k < |items| && items[k] == JNull;
    assert UploadStep(items[k], upload).None?;
  }

  /** The update a request body describes, before the gallery is known:
      `isKeyMilestone` is coerced, undefined keys are dropped. */
  function UpdateOf(body: map<string, string>, gallery: Option<seq<Json>>): (r: TimelineUpdate)
    ensures r.isKeyMilestone.Some? <==> "isKeyMilestone" in body
    ensures r.isKeyMilestone.Some? ==> r.isKeyMilestone.value == (Text.Lower(body["isKeyMilestone"]) == "true")
    ensures r.gallery == gallery
    ensures r.title == BodyField(body, "title") && r.description == BodyField(body, "description")
    ensures r.date == BodyField(body, "date") && r.impact == BodyField(body, "impact")
  {
    var flag := KeyMilestoneOnUpdate(FlagField(body));
    TimelineUpdate(BodyField(body, "title"), BodyField(body, "description"), BodyField(body, "date"),
                   if flag.Some? then Some(flag.value.b) else None, BodyField(body, "impact"), gallery)
  }

  /** The outcome of an update request on the stored entry `t`; None is a
      thrown error (validation, a date that does not parse, a throwing upload
      turn). */
  function UpdateOutcome(t: Timeline, body: map<string, string>, files: seq<UploadedFile>,
                         parse: string -> Option<seq<Json>>, parseDate: string -> Option<int>,
                         upload: string -> Option<(string, string)>, now: int): (r: Option<Timeline>)
    ensures r.Some? ==> r.value.id == t.id && r.value.createdAt == t.createdAt && r.value.updatedAt == now
    ensures r.Some? && Conforms(t) ==> Conforms(r.value)
    ensures r.Some? && JNull !in t.gallery ==> JNull !in r.value.gallery
    ensures r.Some? ==> r.value.isKeyMilestone == (if "isKeyMilestone" in body then Text.Lower(body["isKeyMilestone"]) == "true"
                                                   else t.isKeyMilestone)
    ensures r.Some? && UpdateGallery(files, BodyField(body, "galleryData"), parse).None? ==> r.value.gallery == t.gallery
    ensures r.Some? && UpdateGallery(files, BodyField(body, "galleryData"), parse).Some? ==>
              Some(r.value.gallery) == UploadAll(UpdateGallery(files, BodyField(body, "galleryData"), parse).value, upload)
    ensures UpdateGallery(files, BodyField(body, "galleryData"), parse).None? ==>
              r == ApplyUpdate(t, UpdateOf(body, None), parseDate, now)
    ensures UpdateGallery(files, BodyField(body, "galleryData"), parse).Some? ==>
              var uploaded := UploadAll(UpdateGallery(files, BodyField(body, "galleryData"), parse).value, upload);
              r == if uploaded.None? then None else ApplyUpdate(t, UpdateOf(body, uploaded), parseDate, now)
    ensures UpdateGallery(files, BodyField(body, "galleryData"), parse).Some?
            && UploadAll(UpdateGallery(files, BodyField(body, "galleryData"), parse).value, upload).Some? ==>
              r == ApplyUpdate(t, UpdateOf(body, UploadAll(UpdateGallery(files, BodyField(body, "galleryData"), parse).value, upload)),
                               parseDate, now)
  {
    var gallery := UpdateGallery(files, BodyField(body, "galleryData"), parse);
    if gallery.None? then ApplyUpdate(t, UpdateOf(body, None), parseDate, now)
    else
      var uploaded := UploadAll(gallery.value, upload);
      if uploaded.None? then None
      else
        UploadAllNoNull(gallery.value, upload);
        ApplyUpdate(t, UpdateOf(body, uploaded), parseDate, now)
  }

  /** What a successful update stores: each text path the body names,
      trimmed, the parsed date when one is given, and the stored value of
      every path the body leaves out. */
  lemma UpdatedEntry(t: Timeline, body: map<string, string>, files: seq<UploadedFile>,
                     parse: string -> Option<seq<Json>>, parseDate: string -> Option<int>,
                     upload: string -> Option<(string, string)>, now: int)
    requires UpdateOutcome(t, body, files, parse, parseDate, upload, now).Some?
    ensures var n := UpdateOutcome(t, body, files, parse, parseDate, upload, now).value;
      && n.title == (if "title" in body then Text.Trim(body["title"]) else t.title)
      && n.description == (if "description" in body then Text.Trim(body["description"]) else t.description)
      && n.date == (if "date" in body then parseDate(body["date"]).value else t.date)
      && n.impact == (if "impact" in body then Text.Trim(body["impact"]) else t.impact)
      && ("date" in body ==> body["date"] != [])
  {
    var g := UpdateGallery(files, BodyField(body, "galleryData"), parse);
    var gal := if g.None? then None else UploadAll(g.value, upload);
    var u := UpdateOf(body, gal);
    assert UpdateOutcome(t, body, files, parse, parseDate, upload, now) == ApplyUpdate(t, u, parseDate, now);
  }

  /** An update whose body sends an empty date fails, whatever `parseDate`
      makes of '': the empty string casts to null and the `required`
      validator refuses it. */
  lemma EmptyDateFailsUpdate(t: Timeline, body: map<string, string>, files: seq<UploadedFile>,
                             parse: string -> Option<seq<Json>>, parseDate: string -> Option<int>,
                             upload: string -> Option<(string, string)>, now: int)
    requires "date" in body && body["date"] == []
    ensures UpdateOutcome(t, body, files, parse, parseDate, upload, now).None?
  {
    var g := UpdateGallery(files, BodyField(body, "galleryData"), parse);
    var gal := if g.None? then None else UploadAll(g.value, upload);
    assert UpdateOf(body, gal).date == Some([]);
  }

  /** A `galleryData` that does not parse, or whose items include a null,
      leaves the stored gallery as it was. */
  lemma UpdateKeepsGalleryOnBadData(t: Timeline, body: map<string, string>, parse: string -> Option<seq<Json>>,
                                    parseDate: string -> Option<int>, upload: string -> Option<(string, string)>, now: int)
    requires Given(BodyField(body, "galleryData"))
    requires parse(body["galleryData"]).None? || JNull in parse(body["galleryData"]).value
    requires UpdateOutcome(t, body, [], parse, parseDate, upload, now).Some?
    ensures UpdateOutcome(t, body, [], parse, parseDate, upload, now).value.gallery == t.gallery
  {
    assert UpdateGallery([], BodyField(body, "galleryData"), parse).None?;
  }

  /** The truthy public ids of a gallery, in order: what delete sends to
      the storage destroy call. */
  function PublicIds(g: seq<Json>): (r: seq<Json>)
    ensures |r| <= |g|
    ensures forall x :: x in r ==> Truthy(x)
    ensures forall i :: 0 <= i < |g| && FieldTruthy(g[i], "publicId") ==> Field(g[i], "publicId").value in r
    ensures |g| == 1 ==> r == if FieldTruthy(g[0], "publicId") then [Field(g[0], "publicId").value] else []
  {
    if g == [] then []
    else PublicIds(g[..|g| - 1])
         + (if FieldTruthy(g[|g| - 1], "publicId") then [Field(g[|g| - 1], "publicId").value] else [])
  }
  /** The ids of a concatenation are those of each part, in order; with the
      one-entry case this fixes `PublicIds` on every gallery. */
  lemma {:induction false} PublicIdsAppend(a: seq<Json>, b: seq<Json>)
    ensures PublicIds(a + b) == PublicIds(a) + PublicIds(b)
    decreases |b|
  {
    if b == [] {
      assert a + b == a;
    } else {
      assert (a + b)[..|a + b| - 1] == a + b[..|b| - 1];
      PublicIdsAppend(a, b[..|b| - 1]);
    }
  }

  /** Every id in the list is the truthy `publicId` of a gallery entry. */
  lemma {:induction false} PublicIdsSound(g: seq<Json>, x: Json)
    requires x in PublicIds(g)
    ensures exists i :: 0 <= i < |g| && FieldTruthy(g[i], "publicId") && Field(g[i], "publicId").value == x
    decreases |g|
  {
    var front := g[..|g| - 1];
    if x in PublicIds(front) {
      PublicIdsSound(front, x);
      var i :| 0 <= i < |front| && FieldTruthy(front[i], "publicId") && Field(front[i], "publicId").value == x;
      assert g[i] == front[i];
    }
  }

  /** The result of a successful listing. */
  datatype Listed = Listed(count: nat, data: seq<Timeline>)

  /** Every stored entry sits under its own id, below the next id, conforms
      to the schema and has no null in its gallery. */
  ghost predicate StoreInvariant(items: map<nat, Timeline>, nextId: nat) {
    forall k :: k in items ==> items[k].id == k && k < nextId && Conforms(items[k]) && JNull !in items[k].gallery
  }

  lemma AddKeepsInvariant(items: map<nat, Timeline>, nextId: nat, t: Timeline)
    requires StoreInvariant(items, nextId)
    requires t.id == nextId && Conforms(t) && JNull !in t.gallery
    ensures StoreInvariant(items[nextId := t], nextId + 1)
  {
  }

  /** The steps of a create up to the document: the required-field check,
      the gallery, the upload loop and the schema. */
  method BuildTimeline(id: nat, body: map<string, string>, files: seq<UploadedFile>,
                       parse: string -> Option<seq<Json>>, parseDate: string -> Option<int>,
                       upload: string -> Option<(string, string)>, now: int) returns (r: Reply<Timeline>)
    ensures r == CreateOutcome(id, body, files, parse, parseDate, upload, now)
  {
    var title, description, date := BodyField(body, "title"), BodyField(body, "description"), BodyField(body, "date");
    if !Given(title) || !Given(description) || !Given(date) {
      return Err(400, MissingFields);
    }
    var uploaded := UploadInlineImages(CreateGallery(files, BodyField(body, "galleryData"), parse), upload);
    if uploaded.None? {
      return Err(500, ServerError);
    }
    var entry := NewTimeline(id, title.value, description.value, parseDate(date.value), uploaded.value,
                             KeyMilestoneOnCreate(FlagField(body)), BodyField(body, "impact").GetOr(""), now);
    r := if entry.Some? then Ok(201, entry.value) else Err(500, ServerError);
  }

  /** The collection of timeline entries, keyed by id. */
  class TimelineStore {
    var items: map<nat, Timeline>
    var nextId: nat

    /** Every stored entry conforms to the schema and its gallery holds no
        null. */
    ghost predicate Valid()
      reads this
    {
      StoreInvariant(items, nextId)
    }

    constructor ()
      ensures Valid() && items == map[] && nextId == 0
    {
      items := map[];
      nextId := 0;
    }

    /** GET /api/timeline: the selected entries, newest date first, with
        their count. */
    method GetTimelines(keyMilestone: Option<string>) returns (r: Reply<Listed>)
      requires Valid()
      ensures r.Ok? && r.status == 200 && r.data.count == |r.data.data|
      ensures Listing.ListsNewestFirst(Selected(items, keyMilestone), r.data.data, IdOf, DateOf)
      ensures forall t :: t in r.data.data <==> t in items.Values && Matches(keyMilestone, t)
    {
      var sel := Selected(items, keyMilestone);
      var docs := Listing.ListNewestFirst(sel, IdOf, DateOf);
      Listing.ListingCoversStore(sel, docs, IdOf, DateOf);
      forall t | t in docs ensures t in items.Values && Matches(keyMilestone, t) {
        var i :| 0 <= i < |docs| && docs[i] == t;
        assert t == items[t.id];
      }
      forall t | t in items.Values && Matches(keyMilestone, t) ensures t in docs {
        var k :| k in items && items[k] == t;
        assert k in sel;
      }
      r := Ok(200, Listed(|docs|, docs));
    }

    /** GET /api/timeline/:id. */
    method GetTimelineById(id: nat) returns (r: Reply<Timeline>)
      requires Valid()
      ensures id in items ==> r == Ok(200, items[id])
      ensures id !in items ==> r == Err(404, NotFound)
    {
      r := FoundById(items, id, NotFound);
    }

    /** POST /api/timeline. */
    method CreateTimeline(body: map<string, string>, files: seq<UploadedFile>,
                          parse: string -> Option<seq<Json>>, parseDate: string -> Option<int>,
                          upload: string -> Option<(string, string)>, now: int) returns (r: Reply<Timeline>)
      requires Valid()
      modifies this
      ensures Valid()
      ensures r == CreateOutcome(old(nextId), body, files, parse, parseDate, upload, now)
      ensures r.Ok? ==> items == old(items)[old(nextId) := r.data] && nextId == old(nextId) + 1
      ensures r.Err? ==> items == old(items) && nextId == old(nextId)
    {
      r := BuildTimeline(nextId, body, files, parse, parseDate, upload, now);
      assert r == CreateOutcome(old(nextId), body, files, parse, parseDate, upload, now);
      if r.Ok? {
        AddKeepsInvariant(items, nextId, r.data);
        items := items[nextId := r.data];
        nextId := nextId + 1;
      }
    }

    /** PUT /api/timeline/:id; every failure, the unknown id included, is
        answered 500 'Server error'. */
    method UpdateTimeline(id: nat, body: map<string, string>, files: seq<UploadedFile>,
                          parse: string -> Option<seq<Json>>, parseDate: string -> Option<int>,
                          upload: string -> Option<(string, string)>, now: int) returns (r: Reply<Timeline>)
      requires Valid()
      modifies this
      ensures Valid() && nextId == old(nextId)
      ensures id !in old(items) ==> r == Err(500, ServerError) && items == old(items)
      ensures id in old(items) && UpdateOutcome(old(items)[id], body, files, parse, parseDate, upload, now).None? ==>
                r == Err(500, ServerError) && items == old(items)
      ensures id in old(items) && UpdateOutcome(old(items)[id], body, files, parse, parseDate, upload, now).Some? ==>
                && r == Ok(200, UpdateOutcome(old(items)[id], body, files, parse, parseDate, upload, now).value)
                && items == old(items)[id := r.data]
    {
      if id !in items {
        r := Err(500, ServerError);
        return;
      }
      var gallery := UpdateGallery(files, BodyField(body, "galleryData"), parse);
      var newGallery: Option<seq<Json>> := None;
      if gallery.Some? {
        var uploaded := UploadInlineImages(gallery.value, upload);
        if uploaded.None? {
          r := Err(500, ServerError);
          return;
        }
        newGallery := uploaded;
      }
      var updated := ApplyUpdate(items[id], UpdateOf(body, newGallery), parseDate, now);
      assert updated == UpdateOutcome(items[id], body, files, parse, parseDate, upload, now);
      if updated.None? {
        r := Err(500, ServerError);
        return;
      }
      items := items[id := updated.value];
      r := Ok(200, updated.value);
    }

    /** DELETE /api/timeline/:id: each truthy public id of the gallery is
        sent to the destroy call, then the entry goes regardless. */
    method DeleteTimeline(id: nat) returns (r: Reply<()>, destroyed: seq<Json>)
      requires Valid()
      modifies this
      ensures Valid() && nextId == old(nextId)
      ensures id !in old(items) ==> r == Err(404, NotFound) && destroyed == [] && items == old(items)
      ensures id in old(items) ==> && r == Ok(200, ())
                                   && destroyed == PublicIds(old(items)[id].gallery)
                                   && items == old(items) - {id}
    {
      if id !in items {
        r, destroyed := Err(404, NotFound), [];
        return;
      }
      var g := items[id].gallery;
      destroyed := [];
      var i := 0;
      while i < |g|
        invariant 0 <= i <= |g|
        invariant destroyed == PublicIds(g[..i])
      {
        assert g[..i + 1][..i] == g[..i];
        if FieldTruthy(g[i], "publicId") {
          destroyed := destroyed + [Field(g[i], "publicId").value];
        }
        i := i + 1;
      }
      assert g[..i] == g;
      items := items - {id};
      r := Ok(200, ());
    }
  }
}
