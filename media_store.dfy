/** The Media controller (server/controllers/mediaController.js) over an
    id-keyed collection: list query, lookup, create, update, delete and the
    view counter, with the type mapping and the gallery parser it uses.
    Storage destroy calls are best effort: their outcome never changes the
    answer, so the model reports only which public ids were sent to them.
    JSON.parse is the parameter `parse`. */
module MediaController {
  import opened Wrappers
  import opened JsonValues
  import opened Http
  import opened MediaSchema
  import Text
  import Listing

  /** JavaScript `a || b` on strings. */
  function Or(a: string, b: string): (r: string)
    ensures a != [] ==> r == a
    ensures a == [] ==> r == b
  {
    if a != [] then a else b
  }

  function IdOf(m: Media): nat { m.id }
  function UploadDateOf(m: Media): int { m.uploadDate }

  // ---------------------------------------------------------------- type

  /** The admin form's media type mapped onto the `fileType` enum. */
  function TypeToFileType(t: string): (r: string)
    ensures r in FileTypeValues
    ensures r == "document" <==> t == "News Article"
    ensures r == "video" <==> t == "Documentary" || t == "Video Series"
    ensures r == "image" <==> t != "News Article" && t != "Documentary" && t != "Video Series"
  {
    if t == "News Article" then "document"
    else if t == "Documentary" || t == "Video Series" then "video"
    else "image"
  }

  /** `fileType` after an update: a given `type` is mapped, else a given
      `fileType` is copied as it is, else the current value stays. */
  function UpdatedFileType(current: string, t: Option<string>, fileType: Option<string>): (r: string)
    ensures Given(t) ==> r == TypeToFileType(t.value)
    ensures !Given(t) && Given(fileType) ==> r == fileType.value
    ensures !Given(t) && !Given(fileType) ==> r == current
  {
    if Given(t) then TypeToFileType(t.value)
    else if Given(fileType) then fileType.value
    else current
  }

  // ------------------------------------------------------------- gallery

  /** The non-empty trimmed pieces, in order. */
  function NonEmptyTrimmed(pieces: seq<string>): (r: seq<string>)
    ensures |r| <= |pieces|
    ensures forall i :: 0 <= i < |r| ==> r[i] != [] && Text.Trimmed(r[i])
  {
    if pieces == [] then []
    else
      var u := Text.Trim(pieces[0]);
      var rest := NonEmptyTrimmed(pieces[1..]);
      if u == [] then rest else [u] + rest
  }

  /** The pieces of a concatenation are handled part by part, in order;
      with the one-piece case this fixes `NonEmptyTrimmed` on every list. */
  lemma {:induction false} NonEmptyTrimmedAppend(a: seq<string>, b: seq<string>)
    ensures NonEmptyTrimmed(a + b) == NonEmptyTrimmed(a) + NonEmptyTrimmed(b)
  {
    if a == [] {
      assert a + b == b;
    } else {
      assert a == [a[0]] + a[1..];
      NonEmptyTrimmedAppend(a[1..], b);
      NonEmptyTrimmedStep(a[0], a[1..], b);
    }
  }

  /** A single piece gives its trimmed text, or nothing when that is empty. */
  lemma NonEmptyTrimmedOne(p: string)
    ensures NonEmptyTrimmed([p]) == if Text.Trim(p) == [] then [] else [Text.Trim(p)]
  {
    assert [p][1..] == [];
  }

  /** The inductive step of `NonEmptyTrimmedAppend`. */
  lemma NonEmptyTrimmedStep(x: string, t: seq<string>, b: seq<string>)
    requires NonEmptyTrimmed(t + b) == NonEmptyTrimmed(t) + NonEmptyTrimmed(b)
    ensures NonEmptyTrimmed([x] + t + b) == NonEmptyTrimmed([x] + t) + NonEmptyTrimmed(b)
  {
    Text.ConcatAssoc([x], t, b);
    NonEmptyTrimmedFront(x, t + b);
    NonEmptyTrimmedFront(x, t);
    Text.ConcatAssoc(NonEmptyTrimmed([x]), NonEmptyTrimmed(t), NonEmptyTrimmed(b));
  }


  /** A piece in front contributes what it gives on its own. */
  lemma NonEmptyTrimmedFront(p: string, rest: seq<string>)
    ensures NonEmptyTrimmed([p] + rest) == NonEmptyTrimmed([p]) + NonEmptyTrimmed(rest)
  {
    NonEmptyTrimmedOne(p);
    NonEmptyTrimmedUnfold(p, rest);
  }

  /** `NonEmptyTrimmed` on a list with a first piece. */
  lemma NonEmptyTrimmedUnfold(p: string, rest: seq<string>)
    ensures NonEmptyTrimmed([p] + rest)
         == if Text.Trim(p) == [] then NonEmptyTrimmed(rest) else [Text.Trim(p)] + NonEmptyTrimmed(rest)
  {
    assert ([p] + rest)[0] == p;
    assert ([p] + rest)[1..] == rest;
  }

  /** One step of `NonEmptyTrimmed` over a piece that trimming keeps. */
  lemma NonEmptyTrimmedCons(p: string, rest: seq<string>)
    requires p != [] && Text.Trimmed(p)
    ensures NonEmptyTrimmed([p] + rest) == [p] + NonEmptyTrimmed(rest)
  {
    Text.TrimmedFixed(p);
    assert ([p] + rest)[1..] == rest;
  }

  /** Pieces that are already trimmed and non-empty pass through unchanged. */
  lemma {:induction false} NonEmptyTrimmedFixed(pieces: seq<string>)
    requires forall i :: 0 <= i < |pieces| ==> pieces[i] != [] && Text.Trimmed(pieces[i])
    ensures NonEmptyTrimmed(pieces) == pieces
  {
    if pieces != [] {
      var rest := pieces[1..];
      assert pieces == [pieces[0]] + rest;
      NonEmptyTrimmedFixed(rest);
      NonEmptyTrimmedCons(pieces[0], rest);
    }
  }

  /** The URLs of a comma-separated gallery string. */
  function UrlList(g: string): (r: seq<string>)
    ensures forall i :: 0 <= i < |r| ==> r[i] != [] && Text.Trimmed(r[i])
  {
    NonEmptyTrimmed(Text.Split(g, ','))
  }

  /** Joining clean URLs with commas and reading them back gives the URLs. */
  lemma UrlListRoundTrip(urls: seq<string>)
    requires |urls| >= 1
    requires forall i :: 0 <= i < |urls| ==> urls[i] != [] && Text.Trimmed(urls[i]) && ',' !in urls[i]
    ensures UrlList(Text.Join(urls, ',')) == urls
  {
    Text.SplitJoin(urls, ',');
    NonEmptyTrimmedFixed(urls);
  }

  /** One gallery entry built from a URL: `{url, publicId}`. */
  function GalleryEntry(url: string): (r: Json)
    ensures Field(r, "url") == Some(JString(url))
    ensures Field(r, "publicId") == Some(JString(Text.PublicIdOf(url)))
  {
    JObject(map["url" := JString(url), "publicId" := JString(Text.PublicIdOf(url))])
  }

  /** The gallery read from a comma-separated list of URLs. */
  function CommaGallery(g: string): (r: seq<Json>)
    ensures |r| == |UrlList(g)|
    ensures forall i :: 0 <= i < |r| ==> r[i] == GalleryEntry(UrlList(g)[i])
  {
    var urls := UrlList(g);
    seq(|urls|, i requires 0 <= i < |urls| => GalleryEntry(urls[i]))
  }

  /** The gallery a truthy `gallery` form field stands for. */
  function ParseGallery(g: string, parse: string -> Option<seq<Json>>): (r: seq<Json>)
    ensures g == "[object Object]" ==> r == []
    ensures g != "[object Object]" && parse(g).Some? ==> r == parse(g).value
    ensures g != "[object Object]" && parse(g).None? && !Text.Contains(g, ",") && !Text.Contains(g, "http") ==> r == []
    ensures g != "[object Object]" && parse(g).None? && (Text.Contains(g, ",") || Text.Contains(g, "http"))
            ==> r == CommaGallery(g)
  {
    if g == "[object Object]" then []
    else match parse(g)
      case Some(v) => v
      case None =>
        if Text.Contains(g, ",") || Text.Contains(g, "http") then CommaGallery(g) else []
  }

  /** URLs sent as a comma-separated list that is not JSON come back as one
      entry each, in order, with the public id derived from each URL. */
  lemma ParseGalleryOfUrls(urls: seq<string>, parse: string -> Option<seq<Json>>)
    requires |urls| >= 2
    requires forall i :: 0 <= i < |urls| ==> urls[i] != [] && Text.Trimmed(urls[i]) && ',' !in urls[i]
    requires parse(Text.Join(urls, ',')).None?
    ensures var r := ParseGallery(Text.Join(urls, ','), parse);
      && |r| == |urls|
      && forall i :: 0 <= i < |urls| ==>
           Field(r[i], "url") == Some(JString(urls[i]))
           && Field(r[i], "publicId") == Some(JString(Text.PublicIdOf(urls[i])))
  {
    var g := Text.Join(urls, ',');
    JoinedListHasComma(urls);
    assert ParseGallery(g, parse) == CommaGallery(g);
    UrlListRoundTrip(urls);
  }

  /** Two or more URLs joined by commas contain a comma, so the text is not
      the string an object turns into. */
  lemma JoinedListHasComma(urls: seq<string>)
    requires |urls| >= 2
    ensures Text.Contains(Text.Join(urls, ','), ",")
    ensures Text.Join(urls, ',') != "[object Object]"
  {
    var g := Text.Join(urls, ',');
    assert g == urls[0] + [','] + Text.Join(urls[1..], ',');
    assert Text.OccursAt(g, ",", |urls[0]|) by {
      assert g[|urls[0]|..|urls[0]| + 1] == [','];
    }
    Text.ContainsIff(g, ",");
    assert ',' in g;
    assert ',' !in "[object Object]";
  }

  // --------------------------------------------------------------- query

  /** The query of GET /api/media. */
  datatype MediaQuery = MediaQuery(category: Option<string>, tabAssociation: Option<string>)

  /** The category list of a query: split on ',' and trimmed. */
  function Categories(q: string): (r: seq<string>)
    ensures |r| == |Text.Split(q, ',')|
    ensures forall i :: 0 <= i < |r| ==> r[i] == Text.Trim(Text.Split(q, ',')[i])
  {
    var parts := Text.Split(q, ',');
    seq(|parts|, i requires 0 <= i < |parts| => Text.Trim(parts[i]))
  }

  /** A document passes the query's filters; an empty parameter filters
      nothing. */
  predicate Matches(q: MediaQuery, m: Media) {
    && (Given(q.category) ==> m.category in Categories(q.category.value))
    && (Given(q.tabAssociation) ==> m.tabAssociation == q.tabAssociation.value)
  }

  /** A single trimmed category without commas selects exactly that category. */
  lemma SingleCategoryQuery(c: string, m: Media)
    requires c != [] && Text.Trimmed(c) && ',' !in c
    ensures Matches(MediaQuery(Some(c), None), m) <==> m.category == c
  {
    Text.SplitNone(c, ',');
    Text.TrimmedFixed(c);
    assert Categories(c) == [c];
  }

  /** The documents the query selects. */
  function Selected(items: map<nat, Media>, q: MediaQuery): (r: map<nat, Media>)
    ensures forall k :: k in r <==> k in items && Matches(q, items[k])
    ensures forall k :: k in r ==> r[k] == items[k]
  {
    Listing.Where(items, (v: Media) => Matches(q, v))
  }

  // -------------------------------------------------------------- create

  const TitleRequired: string := "Title is required"
  const NoFileUploaded: string := "No file uploaded. Please include a media file."
  const NotFound: string := "Media item not found"

  /** The outcome of a create on a fresh id: the title and main file checks,
      then a new document whose `gallery` is never set, because the
      controller assigns it to `mediaItem` before that constant is declared
      and swallows the resulting ReferenceError. */
  function CreateOutcome(id: nat, body: map<string, string>, mediafile: Option<UploadedFile>,
                         thumbnail: Option<UploadedFile>, user: nat, now: int): (r: Result<Media, string>)
    ensures !Given(BodyField(body, "title")) ==> r == Failure(TitleRequired)
    ensures Given(BodyField(body, "title")) && mediafile.None? ==> r == Failure(NoFileUploaded)
    ensures r.Success? ==> Conforms(r.value) && r.value.id == id && r.value.title == body["title"]
    ensures r.Success? ==> r.value.gallery == [] && r.value.viewCount == 0 && r.value.uploadedBy == user
    ensures r.Success? ==> r.value.fileType == TypeToFileType(BodyField(body, "type").GetOr(""))
    ensures r.Success? ==> r.value.category == Or(BodyField(body, "category").GetOr(""), "MediaTab")
    ensures r.Success? ==> r.value.filePath == mediafile.value.path
    ensures r.Success? && thumbnail.None? ==> r.value.thumbnailPath == ""
    ensures Given(BodyField(body, "title")) && mediafile.Some? ==>
              (r.Success? <==> Or(mediafile.value.filename, mediafile.value.originalname) != [] && mediafile.value.path != [])
    ensures r.Success? ==> r.value.fileName == Or(mediafile.value.filename, mediafile.value.originalname)
    ensures r.Success? ==> r.value.description == BodyField(body, "description").GetOr("")
                           && r.value.tabAssociation == BodyField(body, "tabAssociation").GetOr("")
    ensures r.Success? && thumbnail.Some? ==>
              r.value.thumbnailFileName == Or(thumbnail.value.filename, thumbnail.value.originalname)
              && r.value.thumbnailPath == thumbnail.value.path
    ensures r.Success? && thumbnail.None? ==> r.value.thumbnailFileName == ""
    ensures r.Success? ==> r.value.uploadDate == now && r.value.createdAt == now && r.value.updatedAt == now
                           && r.value.duration == ""
  {
    var title := BodyField(body, "title");
    if !Given(title) then Failure(TitleRequired)
    else if mediafile.None? then Failure(NoFileUploaded)
    else
      var mf := mediafile.value;
      var m := NewMedia(id, title.value, Or(BodyField(body, "description").GetOr(""), ""),
                        Or(mf.filename, mf.originalname), Or(mf.path, ""),
                        TypeToFileType(BodyField(body, "type").GetOr("")),
                        Or(BodyField(body, "category").GetOr(""), "MediaTab"),
                        Or(BodyField(body, "tabAssociation").GetOr(""), ""), user, 0, now);
      var withThumb := if thumbnail.Some? then
                         m.(thumbnailFileName := Or(thumbnail.value.filename, thumbnail.value.originalname),
                            thumbnailPath := Or(thumbnail.value.path, ""))
                       else m;
      Save(withThumb)
  }

  /** A create answers the same whatever gallery the body carries. */
  lemma CreateIgnoresGallery(id: nat, body: map<string, string>, g: string, mediafile: Option<UploadedFile>,
                             thumbnail: Option<UploadedFile>, user: nat, now: int)
    ensures CreateOutcome(id, body["gallery" := g], mediafile, thumbnail, user, now)
         == CreateOutcome(id, body, mediafile, thumbnail, user, now)
  {
    var b := body["gallery" := g];
    assert BodyField(b, "title") == BodyField(body, "title");
    assert BodyField(b, "description") == BodyField(body, "description");
    assert BodyField(b, "type") == BodyField(body, "type");
    assert BodyField(b, "category") == BodyField(body, "category");
    assert BodyField(b, "tabAssociation") == BodyField(body, "tabAssociation");
  }

  // -------------------------------------------------------------- update

  /** The document after the update's assignments, before it is saved. */
  function Updated(m: Media, body: map<string, string>, mediafile: Option<UploadedFile>,
                   thumbnail: Option<UploadedFile>, user: nat, now: int,
                   parse: string -> Option<seq<Json>>): (r: Media)
    ensures r.id == m.id && r.createdAt == m.createdAt && r.uploadDate == m.uploadDate
    ensures r.viewCount == m.viewCount && r.duration == m.duration
    ensures r.uploadedBy == user && r.updatedAt == now
  {
    var m1 := if mediafile.Some? then m.(fileName := mediafile.value.filename, filePath := mediafile.value.path) else m;
    var m2 := if thumbnail.Some? then m1.(thumbnailFileName := thumbnail.value.filename,
                                          thumbnailPath := thumbnail.value.path) else m1;
    var m3 := m2.(fileType := UpdatedFileType(m2.fileType, BodyField(body, "type"), BodyField(body, "fileType")));
    var g := BodyField(body, "gallery");
    var m4 := if Given(g) then m3.(gallery := ParseGallery(g.value, parse)) else m3;
    m4.(title := BodyField(body, "title").GetOr(m4.title),
        description := BodyField(body, "description").GetOr(m4.description),
        category := BodyField(body, "category").GetOr(m4.category),
        tabAssociation := BodyField(body, "tabAssociation").GetOr(m4.tabAssociation),
        uploadedBy := user,
        updatedAt := now)
  }

  /** Which fields an update writes and which it keeps. */
  lemma UpdatedFields(m: Media, body: map<string, string>, mediafile: Option<UploadedFile>,
                      thumbnail: Option<UploadedFile>, user: nat, now: int, parse: string -> Option<seq<Json>>)
    ensures var r := Updated(m, body, mediafile, thumbnail, user, now, parse);
      && r.title == (if "title" in body then body["title"] else m.title)
      && r.description == (if "description" in body then body["description"] else m.description)
      && r.category == (if "category" in body then body["category"] else m.category)
      && r.tabAssociation == (if "tabAssociation" in body then body["tabAssociation"] else m.tabAssociation)
      && (mediafile.None? ==> r.fileName == m.fileName && r.filePath == m.filePath)
      && (mediafile.Some? ==> r.fileName == mediafile.value.filename && r.filePath == mediafile.value.path)
      && (thumbnail.None? ==> r.thumbnailFileName == m.thumbnailFileName && r.thumbnailPath == m.thumbnailPath)
      && (thumbnail.Some? ==> r.thumbnailFileName == thumbnail.value.filename && r.thumbnailPath == thumbnail.value.path)
      && r.fileType == UpdatedFileType(m.fileType, BodyField(body, "type"), BodyField(body, "fileType"))
      && r.gallery == (if Given(BodyField(body, "gallery")) then ParseGallery(body["gallery"], parse) else m.gallery)
  {
  }

  /** The outcome of an update of the stored document `m`: the assignments,
      then the save's validation. */
  function UpdateOutcome(m: Media, body: map<string, string>, mediafile: Option<UploadedFile>,
                         thumbnail: Option<UploadedFile>, user: nat, now: int,
                         parse: string -> Option<seq<Json>>): (r: Result<Media, string>)
    ensures r.Success? <==> Conforms(Updated(m, body, mediafile, thumbnail, user, now, parse))
    ensures r.Success? ==> r.value == Updated(m, body, mediafile, thumbnail, user, now, parse)
  {
    Save(Updated(m, body, mediafile, thumbnail, user, now, parse))
  }

  /** An update whose gallery string is a comma-separated list of URLs
      stores `{url, publicId}` objects in the `[String]` gallery: the save
      fails, and the route answers 500. */
  lemma UpdateWithUrlListFails(m: Media, body: map<string, string>, mediafile: Option<UploadedFile>,
                               thumbnail: Option<UploadedFile>, user: nat, now: int,
                               parse: string -> Option<seq<Json>>, urls: seq<string>)
    requires |urls| >= 2
    requires forall i :: 0 <= i < |urls| ==> urls[i] != [] && Text.Trimmed(urls[i]) && ',' !in urls[i]
    requires "gallery" in body && body["gallery"] == Text.Join(urls, ',') && parse(body["gallery"]).None?
    ensures UpdateOutcome(m, body, mediafile, thumbnail, user, now, parse).Failure?
    ensures UpdateOutcome(m, body, mediafile, thumbnail, user, now, parse).error
         == SaveMessage(SaveErrors(Updated(m, body, mediafile, thumbnail, user, now, parse)))
  {
    UrlListUncast(urls, parse);
    var g := ParseGallery(body["gallery"], parse);
    var u := Updated(m, body, mediafile, thumbnail, user, now, parse);
    UpdatedFields(m, body, mediafile, thumbnail, user, now, parse);
    assert u.gallery == g;
    assert !Conforms(u);
  }

  /** A comma-separated list of URLs is a given gallery string whose parsed
      entries do not cast to strings. */
  lemma UrlListUncast(urls: seq<string>, parse: string -> Option<seq<Json>>)
    requires |urls| >= 2
    requires forall i :: 0 <= i < |urls| ==> urls[i] != [] && Text.Trimmed(urls[i]) && ',' !in urls[i]
    requires parse(Text.Join(urls, ',')).None?
    ensures Text.Join(urls, ',') != []
    ensures !GalleryCasts(ParseGallery(Text.Join(urls, ','), parse))
  {
    var j := Text.Join(urls, ',');
    JoinedListHasComma(urls);
    Text.ContainsIff(j, ",");
    ParseGalleryOfUrls(urls, parse);
    var g := ParseGallery(j, parse);
    assert Field(g[0], "url").Some?;
  }

  /** An update naming an unknown `fileType` (and no `type`) is refused. */
  lemma UpdateRejectsUnknownFileType(m: Media, body: map<string, string>, mediafile: Option<UploadedFile>,
                                     thumbnail: Option<UploadedFile>, user: nat, now: int,
                                     parse: string -> Option<seq<Json>>)
    requires !Given(BodyField(body, "type")) && "fileType" in body && body["fileType"] != []
    requires body["fileType"] !in FileTypeValues
    ensures UpdateOutcome(m, body, mediafile, thumbnail, user, now, parse).Failure?
  {
    UpdatedFields(m, body, mediafile, thumbnail, user, now, parse);
  }

  /** The public ids an update hands to the storage destroy call: the old
      main file when a new one came, the old thumbnail when a new one came. */
  function UpdateDestroys(m: Media, mediafile: Option<UploadedFile>, thumbnail: Option<UploadedFile>): (r: seq<string>)
    ensures |r| <= 2
    ensures m.fileName in r <==> (mediafile.Some? && m.fileName != []) || (thumbnail.Some? && m.thumbnailFileName == m.fileName != [])
    ensures forall x :: x in r <==> x != [] && ((mediafile.Some? && x == m.fileName) || (thumbnail.Some? && x == m.thumbnailFileName))
    ensures |r| == (if mediafile.Some? && m.fileName != [] then 1 else 0) + (if thumbnail.Some? && m.thumbnailFileName != [] then 1 else 0)
    ensures mediafile.Some? && m.fileName != [] ==> r[0] == m.fileName
    ensures thumbnail.Some? && m.thumbnailFileName != [] ==> r[|r| - 1] == m.thumbnailFileName
  {
    (if mediafile.Some? && m.fileName != [] then [m.fileName] else [])
    + (if thumbnail.Some? && m.thumbnailFileName != [] then [m.thumbnailFileName] else [])
  }

  /** The public ids a delete hands to the storage destroy call. */
  function DeleteDestroys(m: Media): (r: seq<string>)
    ensures forall i :: 0 <= i < |r| ==> r[i] != []
    ensures |r| == (if m.fileName != [] then 1 else 0) + (if m.thumbnailFileName != [] then 1 else 0)
    ensures forall x :: x in r <==> x != [] && (x == m.fileName || x == m.thumbnailFileName)
    ensures m.fileName != [] ==> r[0] == m.fileName
    ensures m.thumbnailFileName != [] ==> r[|r| - 1] == m.thumbnailFileName
  {
    (if m.fileName != [] then [m.fileName] else [])
    + (if m.thumbnailFileName != [] then [m.thumbnailFileName] else [])
  }

  /** The collection of Media documents, keyed by id. */
  class MediaStore {
    var items: map<nat, Media>
    var nextId: nat

    ghost predicate Valid()
      reads this
    {
      forall k :: k in items ==> items[k].id == k && k < nextId && Conforms(items[k])
    }

    constructor ()
      ensures Valid() && items == map[] && nextId == 0
    {
      items := map[];
      nextId := 0;
    }

    /** GET /api/media: the documents the query selects, newest upload first. */
    method GetMediaItems(q: MediaQuery) returns (r: seq<Media>)
      requires Valid()
      ensures Listing.ListsNewestFirst(Selected(items, q), r, IdOf, UploadDateOf)
      ensures forall m :: m in r <==> m in items.Values && Matches(q, m)
    {
      var sel := Selected(items, q);
      r := Listing.ListNewestFirst(sel, IdOf, UploadDateOf);
      Listing.ListingCoversStore(sel, r, IdOf, UploadDateOf);
      forall m | m in r ensures m in items.Values && Matches(q, m) {
        var i :| 0 <= i < |r| && r[i] == m;
        assert m == items[m.id];
      }
      forall m | m in items.Values && Matches(q, m) ensures m in r {
        var k :| k in items && items[k] == m;
        assert k in sel;
      }
    }

    /** GET /api/media/:id. */
    method GetMediaItemById(id: nat) returns (r: Reply<Media>)
      requires Valid()
      ensures id in items ==> r == Ok(200, items[id])
      ensures id !in items ==> r == Err(404, NotFound)
    {
      r := FoundById(items, id, NotFound);
    }

    /** POST /api/media; every failure is answered with 500. */
    method CreateMediaItem(body: map<string, string>, mediafile: Option<UploadedFile>,
                           thumbnail: Option<UploadedFile>, user: nat, now: int) returns (r: Reply<Media>)
      requires Valid()
      modifies this
      ensures Valid()
      ensures CreateOutcome(old(nextId), body, mediafile, thumbnail, user, now).Success? ==>
                && r == Ok(201, CreateOutcome(old(nextId), body, mediafile, thumbnail, user, now).value)
                && items == old(items)[old(nextId) := r.data] && nextId == old(nextId) + 1
      ensures CreateOutcome(old(nextId), body, mediafile, thumbnail, user, now).Failure? ==>
                && r == Err(500, CreateOutcome(old(nextId), body, mediafile, thumbnail, user, now).error)
                && items == old(items) && nextId == old(nextId)
    {
      var outcome := CreateOutcome(nextId, body, mediafile, thumbnail, user, now);
      if outcome.Failure? {
        r := Err(500, outcome.error);
        return;
      }
      items := items[nextId := outcome.value];
      nextId := nextId + 1;
      r := Ok(201, outcome.value);
    }

    /** PUT /api/media/:id; the not-found 404 is caught and answered 500. */
    method UpdateMediaItem(id: nat, body: map<string, string>, mediafile: Option<UploadedFile>,
                           thumbnail: Option<UploadedFile>, user: nat, now: int,
                           parse: string -> Option<seq<Json>>) returns (r: Reply<Media>, destroyed: seq<string>)
      requires Valid()
      modifies this
      ensures Valid() && nextId == old(nextId)
      ensures id !in old(items) ==> r == Err(500, NotFound) && destroyed == [] && items == old(items)
      ensures id in old(items) ==> destroyed == UpdateDestroys(old(items)[id], mediafile, thumbnail)
      ensures id in old(items) && UpdateOutcome(old(items)[id], body, mediafile, thumbnail, user, now, parse).Success? ==>
                && r == Ok(200, UpdateOutcome(old(items)[id], body, mediafile, thumbnail, user, now, parse).value)
                && items == old(items)[id := r.data]
      ensures id in old(items) && UpdateOutcome(old(items)[id], body, mediafile, thumbnail, user, now, parse).Failure? ==>
                && r == Err(500, UpdateOutcome(old(items)[id], body, mediafile, thumbnail, user, now, parse).error)
                && items == old(items)
    {
      if id !in items {
        r, destroyed := Err(500, NotFound), [];
        return;
      }
      destroyed := UpdateDestroys(items[id], mediafile, thumbnail);
      var outcome := UpdateOutcome(items[id], body, mediafile, thumbnail, user, now, parse);
      if outcome.Failure? {
        r := Err(500, outcome.error);
        return;
      }
      items := items[id := outcome.value];
      r := Ok(200, outcome.value);
    }

    /** DELETE /api/media/:id: the document goes whatever the destroy calls do. */
    method DeleteMediaItem(id: nat) returns (r: Reply<string>, destroyed: seq<string>)
      requires Valid()
      modifies this
      ensures Valid() && nextId == old(nextId)
      ensures id !in old(items) ==> r == Err(404, NotFound) && destroyed == [] && items == old(items)
      ensures id in old(items) ==> && r == Ok(200, "Media item removed")
                                   && destroyed == DeleteDestroys(old(items)[id])
                                   && items == old(items) - {id}
    {
      if id !in items {
        r, destroyed := Err(404, NotFound), [];
        return;
      }
      destroyed := DeleteDestroys(items[id]);
      items := items - {id};
      r := Ok(200, "Media item removed");
    }

    /** PUT /api/media/:id/view: one more view, nothing else changes but the
        update timestamp. */
    method IncrementViewCount(id: nat, now: int) returns (r: Reply<nat>)
      requires Valid()
      modifies this
      ensures Valid() && nextId == old(nextId)
      ensures id !in old(items) ==> r == Err(404, NotFound) && items == old(items)
      ensures id in old(items) ==> && r == Ok(200, old(items)[id].viewCount + 1)
                                   && items == old(items)[id := old(items)[id].(viewCount := r.data, updatedAt := now)]
    {
      if id !in items {
        r := Err(404, NotFound);
        return;
      }
      var m := items[id];
      var count := m.viewCount + 1;
      items := items[id := m.(viewCount := count, updatedAt := now)];
      r := Ok(200, count);
    }
  }
}
