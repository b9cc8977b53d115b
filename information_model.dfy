/** The Information schema (server/models/Information.js): fields, the trim
    setter on `title`, required flags, enums, defaults, timestamps, and the
    validation messages the schema produces. */
module InformationSchema {
  import opened Wrappers
  import opened Http
  import Text

  const StatusValues: seq<string> := ["draft", "published"]
  const CategoryValues: seq<string> := ["Article", "Announcement", "News"]

  /** A stored Information document; `None` is a field never set. */
  datatype Information = Information(
    id: nat,
    title: string,
    content: string,
    imageUrl: Option<string>,
    imagePublicId: Option<string>,
    status: string,
    category: string,
    createdAt: int,
    updatedAt: int)

  /** A string field holding a truthy value. */
  predicate Present(v: Option<string>) {
    v.Some? && v.value != []
  }

  /** What the schema guarantees of every stored document. */
  predicate Conforms(d: Information) {
    && d.title != [] && Text.Trimmed(d.title)
    && d.content != []
    && d.status in StatusValues
    && d.category in CategoryValues
  }

  /** The value a path receives: the trim setter runs on `title` only. */
  function SetPath(path: string, v: string): (r: string)
    ensures path == "title" ==> r == Text.Trim(v)
    ensures path != "title" ==> r == v
  {
    if path == "title" then Text.Trim(v) else v
  }

  /** The `required` validator entry for a path whose value is `v`; absent and
      empty values fail. */
  function RequiredError(path: string, name: string, v: Option<string>): (r: seq<string>)
    ensures r == [] <==> Present(v)
  {
    if Present(v) then [] else [path + ": " + name + " is required."]
  }

  /** The `enum` validator entry; an absent value passes. */
  function EnumError(path: string, values: seq<string>, v: Option<string>): (r: seq<string>)
    ensures r == [] <==> v.None? || v.value in values
  {
    if v.None? || v.value in values then []
    else [path + ": `" + v.value + "` is not a valid enum value for path `" + path + "`."]
  }

  /** Validation entries for a new document, in schema order. */
  function CreateErrors(title: Option<string>, content: Option<string>, status: Option<string>, category: Option<string>): (r: seq<string>)
    ensures r == [] <==> Present(title) && Present(content)
                         && (status.None? || status.value in StatusValues)
                         && (category.None? || category.value in CategoryValues)
  {
    RequiredError("title", "Title", title) + RequiredError("content", "Content", content)
    + EnumError("status", StatusValues, status) + EnumError("category", CategoryValues, category)
  }

  /** Validation entries for an update: only the paths being set are checked
      (update validators), in schema order. */
  function UpdateErrors(upd: map<string, string>): (r: seq<string>)
    ensures r == [] <==> ("title" in upd ==> upd["title"] != [])
                         && ("content" in upd ==> upd["content"] != [])
                         && ("status" in upd ==> upd["status"] in StatusValues)
                         && ("category" in upd ==> upd["category"] in CategoryValues)
  {
    (if "title" in upd then RequiredError("title", "Title", Some(upd["title"])) else [])
    + (if "content" in upd then RequiredError("content", "Content", Some(upd["content"])) else [])
    + EnumError("status", StatusValues, BodyField(upd, "status"))
    + EnumError("category", CategoryValues, BodyField(upd, "category"))
  }

  /** A document-level validation error message (`Model.create`). */
  function CreateMessage(errs: seq<string>): string {
    "Information validation failed: " + Text.JoinWith(errs, ", ")
  }

  /** A query-level validation error message (update validators). */
  function UpdateMessage(errs: seq<string>): string {
    "Validation failed: " + Text.JoinWith(errs, ", ")
  }

  /** Builds and validates a new document from the values a create passes
      (undefined values are `None`); defaults fill `status` and `category`,
      and both timestamps are `now`. */
  function NewInformation(id: nat, title: Option<string>, content: Option<string>, imageUrl: Option<string>,
                          imagePublicId: Option<string>, status: Option<string>, category: Option<string>,
                          now: int): (r: Result<Information, string>)
    ensures r.Success? <==> CreateErrors(if title.Some? then Some(Text.Trim(title.value)) else None,
                                         content, status, category) == []
    ensures r.Success? ==> Conforms(r.value)
    ensures r.Success? ==> r.value.id == id && r.value.title == Text.Trim(title.value)
                           && r.value.content == content.value
                           && r.value.imageUrl == imageUrl && r.value.imagePublicId == imagePublicId
                           && r.value.status == status.GetOr("draft")
                           && r.value.category == category.GetOr("Article")
                           && r.value.createdAt == now && r.value.updatedAt == now
    ensures r.Failure? ==> r.error == CreateMessage(CreateErrors(if title.Some? then Some(Text.Trim(title.value)) else None,
                                                                 content, status, category))
  {
    var t := if title.Some? then Some(Text.Trim(title.value)) else None;
    var errs := CreateErrors(t, content, status, category);
    if errs != [] then Failure(CreateMessage(errs))
    else
      Success(Information(id, t.value, content.value, imageUrl, imagePublicId,
                          status.GetOr("draft"), category.GetOr("Article"), now, now))
  }

  /** The paths an update can assign: strict mode drops every other key. */
  const UpdatablePaths: set<string> := {"title", "content", "imageUrl", "imagePublicId", "status", "category"}

  /** The assignments an update makes, after strict mode and setters. */
  function Assignments(data: map<string, string>): (r: map<string, string>)
    ensures r.Keys == data.Keys * UpdatablePaths
    ensures forall p :: p in r ==> r[p] == SetPath(p, data[p])
  {
    map p | p in data.Keys * UpdatablePaths :: SetPath(p, data[p])
  }

  /** The document after the assignments `upd` at time `now`. */
  function Assign(d: Information, upd: map<string, string>, now: int): (r: Information)
    ensures r.id == d.id && r.createdAt == d.createdAt && r.updatedAt == now
    ensures r.title == BodyField(upd, "title").GetOr(d.title)
    ensures r.content == BodyField(upd, "content").GetOr(d.content)
    ensures r.imageUrl == (if "imageUrl" in upd then Some(upd["imageUrl"]) else d.imageUrl)
    ensures r.imagePublicId == (if "imagePublicId" in upd then Some(upd["imagePublicId"]) else d.imagePublicId)
    ensures r.status == BodyField(upd, "status").GetOr(d.status)
    ensures r.category == BodyField(upd, "category").GetOr(d.category)
  {
    d.(title := BodyField(upd, "title").GetOr(d.title),
       content := BodyField(upd, "content").GetOr(d.content),
       imageUrl := if "imageUrl" in upd then Some(upd["imageUrl"]) else d.imageUrl,
       imagePublicId := if "imagePublicId" in upd then Some(upd["imagePublicId"]) else d.imagePublicId,
       status := BodyField(upd, "status").GetOr(d.status),
       category := BodyField(upd, "category").GetOr(d.category),
       updatedAt := now)
  }

  /** An update that passes its validators keeps a conforming document
      conforming. */
  lemma AssignPreservesConformance(d: Information, data: map<string, string>, now: int)
    requires Conforms(d)
    requires UpdateErrors(Assignments(data)) == []
    ensures Conforms(Assign(d, Assignments(data), now))
  {
  }
}
