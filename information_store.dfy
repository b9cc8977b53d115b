/** The Information controller (server/controllers/informationController.js)
    over an id-keyed collection. Line 2 of the controller binds `cloudinary`
    to the configuration module's export object `{ cloudinary, storage }`, so
    `cloudinary.uploader` is undefined and every destroy call throws a
    TypeError before anything is written. */
module InformationController {
  import opened Wrappers
  import opened Http
  import opened InformationSchema
  import Listing

  /** The error every `cloudinary.uploader.destroy(...)` call throws here. */
  const DestroyError: string := UndefinedMethodError("destroy")

  function IdOf(d: Information): nat { d.id }
  function CreatedAtOf(d: Information): int { d.createdAt }

  /** The fields an update writes: the body's own keys, then the uploaded
      file's URL and public id when a file came with the request. */
  function UpdatedData(body: map<string, string>, file: Option<UploadedFile>): (r: map<string, string>)
    ensures file.None? ==> r == body
    ensures file.Some? ==> r.Keys == body.Keys + {"imageUrl", "imagePublicId"}
    ensures file.Some? ==> r["imageUrl"] == file.value.path && r["imagePublicId"] == file.value.filename
    ensures forall k :: k in body && k != "imageUrl" && k != "imagePublicId" ==> k in r && r[k] == body[k]
  {
    if file.Some? then body["imageUrl" := file.value.path]["imagePublicId" := file.value.filename]
    else body
  }

  /** The outcome of a create request on a fresh id: only `title`, `content`,
      `status` and `category` are read from the body, and the image fields
      come from the uploaded file alone. */
  function CreateOutcome(id: nat, body: map<string, string>, file: Option<UploadedFile>, now: int): (r: Result<Information, string>)
    ensures r.Success? ==> Conforms(r.value) && r.value.id == id && r.value.createdAt == now
    ensures r.Success? ==> r.value.imageUrl == (if file.Some? then Some(file.value.path) else None)
                           && r.value.imagePublicId == (if file.Some? then Some(file.value.filename) else None)
    ensures r.Success? <==> "title" in body && Text.Trim(body["title"]) != [] && "content" in body && body["content"] != []
                            && ("status" in body ==> body["status"] in StatusValues)
                            && ("category" in body ==> body["category"] in CategoryValues)
    ensures r.Success? ==> r.value.content == body["content"] && r.value.title == Text.Trim(body["title"])
  {
    NewInformation(id, BodyField(body, "title"), BodyField(body, "content"),
                   if file.Some? then Some(file.value.path) else None,
                   if file.Some? then Some(file.value.filename) else None,
                   BodyField(body, "status"), BodyField(body, "category"), now)
  }

  /** Fields of the body other than the four a create reads do not matter. */
  lemma CreateIgnoresOtherFields(id: nat, body: map<string, string>, key: string, v: string, file: Option<UploadedFile>, now: int)
    requires key !in {"title", "content", "status", "category"}
    ensures CreateOutcome(id, body[key := v], file, now) == CreateOutcome(id, body, file, now)
  {
    var b := body[key := v];
    assert BodyField(b, "title") == BodyField(body, "title");
    assert BodyField(b, "content") == BodyField(body, "content");
    assert BodyField(b, "status") == BodyField(body, "status");
    assert BodyField(b, "category") == BodyField(body, "category");
  }

  /** The outcome of an update request on the stored document `d`. */
  function UpdateOutcome(d: Information, body: map<string, string>, file: Option<UploadedFile>, now: int): (r: Result<Information, string>)
    ensures file.Some? && Present(d.imagePublicId) ==> r == Failure(DestroyError)
    ensures r.Success? ==> r.value.id == d.id && r.value.createdAt == d.createdAt && r.value.updatedAt == now
    ensures r.Success? && Conforms(d) ==> Conforms(r.value)
    ensures r.Failure? && !(file.Some? && Present(d.imagePublicId))
            ==> r.error == UpdateMessage(UpdateErrors(Assignments(UpdatedData(body, file))))
    ensures !(file.Some? && Present(d.imagePublicId))
            ==> (r.Success? <==> UpdateErrors(Assignments(UpdatedData(body, file))) == [])
    ensures r.Success? ==> r.value == Assign(d, Assignments(UpdatedData(body, file)), now)
  {
    if file.Some? && Present(d.imagePublicId) then Failure(DestroyError)
    else
      var upd := Assignments(UpdatedData(body, file));
      var errs := UpdateErrors(upd);
      if errs != [] then Failure(UpdateMessage(errs))
      else
        assert Conforms(d) ==> Conforms(Assign(d, upd, now)) by {
          if Conforms(d) { AssignPreservesConformance(d, UpdatedData(body, file), now); }
        }
        Success(Assign(d, upd, now))
  }

  /** A successful update without a file overwrites exactly the schema paths
      the body names (the title trimmed) and keeps every other field. */
  lemma UpdateOverwritesBodyFields(d: Information, body: map<string, string>, now: int)
    requires UpdateOutcome(d, body, None, now).Success?
    ensures var n := UpdateOutcome(d, body, None, now).value;
      && n.title == (if "title" in body then Text.Trim(body["title"]) else d.title)
      && n.content == (if "content" in body then body["content"] else d.content)
      && n.imageUrl == (if "imageUrl" in body then Some(body["imageUrl"]) else d.imageUrl)
      && n.imagePublicId == (if "imagePublicId" in body then Some(body["imagePublicId"]) else d.imagePublicId)
      && n.status == (if "status" in body then body["status"] else d.status)
      && n.category == (if "category" in body then body["category"] else d.category)
  {
  }

  /** An update without a file succeeds exactly when the body's schema paths
      pass their update validators: a title that is not blank once trimmed,
      non-empty content and enum members for status and category. */
  lemma UpdateSucceedsIffValid(d: Information, body: map<string, string>, now: int)
    ensures UpdateOutcome(d, body, None, now).Success?
            <==> ("title" in body ==> Text.Trim(body["title"]) != [])
                 && ("content" in body ==> body["content"] != [])
                 && ("status" in body ==> body["status"] in StatusValues)
                 && ("category" in body ==> body["category"] in CategoryValues)
  {
    var upd := Assignments(UpdatedData(body, None));
    assert "title" in body ==> upd["title"] == Text.Trim(body["title"]);
  }

  /** An uploaded file replaces both image fields, whatever the body says of
      them, once the old image has no public id to destroy. */
  lemma UpdateWithFileSetsImage(d: Information, body: map<string, string>, f: UploadedFile, now: int)
    requires UpdateOutcome(d, body, Some(f), now).Success?
    ensures UpdateOutcome(d, body, Some(f), now).value.imageUrl == Some(f.path)
    ensures UpdateOutcome(d, body, Some(f), now).value.imagePublicId == Some(f.filename)
  {
    var upd := Assignments(UpdatedData(body, Some(f)));
    assert upd["imageUrl"] == f.path && upd["imagePublicId"] == f.filename;
  }

  /** Every stored document sits under its own id, below the next id, and
      conforms to the schema. */
  ghost predicate StoreInvariant(items: map<nat, Information>, nextId: nat) {
    forall k :: k in items ==> items[k].id == k && k < nextId && Conforms(items[k])
  }

  /** Storing a conforming document under the next id keeps the invariant. */
  lemma InsertKeepsInvariant(items: map<nat, Information>, nextId: nat, doc: Information)
    requires StoreInvariant(items, nextId) && doc.id == nextId && Conforms(doc)
    ensures StoreInvariant(items[nextId := doc], nextId + 1)
  {
  }

  /** The collection of Information documents, keyed by id. */
  class InformationStore {
    var items: map<nat, Information>
    var nextId: nat

    ghost predicate Valid()
      reads this
    {
      StoreInvariant(items, nextId)
    }

    constructor ()
      ensures Valid() && items == map[] && nextId == 0
    {
      items := map[];
      nextId := 0;
    }

    /** GET /api/information: every document, newest `createdAt` first. */
    method GetInformationItems() returns (r: Reply<seq<Information>>)
      requires Valid()
      ensures r.Ok? && r.status == 200
      ensures Listing.ListsNewestFirst(items, r.data, IdOf, CreatedAtOf)
    {
      var docs := Listing.ListNewestFirst(items, IdOf, CreatedAtOf);
      r := Ok(200, docs);
    }

    /** POST /api/information. */
    method CreateInformationItem(body: map<string, string>, file: Option<UploadedFile>, now: int) returns (r: Reply<Information>)
      requires Valid()
      modifies this
      ensures Valid()
      ensures CreateOutcome(old(nextId), body, file, now).Success? ==>
                && r == Ok(201, CreateOutcome(old(nextId), body, file, now).value)
                && items == old(items)[old(nextId) := r.data] && nextId == old(nextId) + 1
      ensures CreateOutcome(old(nextId), body, file, now).Failure? ==>
                && r == Err(400, CreateOutcome(old(nextId), body, file, now).error)
                && items == old(items) && nextId == old(nextId)
    {
      var outcome := CreateOutcome(nextId, body, file, now);
      if outcome.Failure? {
        r := Err(400, outcome.error);
        return;
      }
      var doc := outcome.value;
      InsertKeepsInvariant(items, nextId, doc);
      items := items[nextId := doc];
      nextId := nextId + 1;
      r := Ok(201, doc);
    }

    /** PUT /api/information/:id. */
    method UpdateInformationItem(id: nat, body: map<string, string>, file: Option<UploadedFile>, now: int) returns (r: Reply<Information>)
      requires Valid()
      modifies this
      ensures Valid() && nextId == old(nextId)
      ensures id !in old(items) ==> r == Err(404, "Item not found") && items == old(items)
      ensures id in old(items) && UpdateOutcome(old(items)[id], body, file, now).Success? ==>
                && r == Ok(200, UpdateOutcome(old(items)[id], body, file, now).value)
                && items == old(items)[id := r.data]
      ensures id in old(items) && UpdateOutcome(old(items)[id], body, file, now).Failure? ==>
                && r == Err(400, UpdateOutcome(old(items)[id], body, file, now).error)
                && items == old(items)
    {
      if id !in items {
        r := Err(404, "Item not found");
        return;
      }
      var outcome := UpdateOutcome(items[id], body, file, now);
      if outcome.Failure? {
        r := Err(400, outcome.error);
        return;
      }
      items := items[id := outcome.value];
      r := Ok(200, outcome.value);
    }

    /** DELETE /api/information/:id: a document with an image public id
        cannot be removed, because the destroy call throws first. */
    method DeleteInformationItem(id: nat) returns (r: Reply<()>)
      requires Valid()
      modifies this
      ensures Valid() && nextId == old(nextId)
      ensures id !in old(items) ==> r == Err(404, "Item not found") && items == old(items)
      ensures id in old(items) && Present(old(items)[id].imagePublicId) ==>
                r == Err(500, "Server Error") && items == old(items)
      ensures id in old(items) && !Present(old(items)[id].imagePublicId) ==>
                r == Ok(200, ()) && items == old(items) - {id}
    {
      if id !in items {
        r := Err(404, "Item not found");
        return;
      }
      if Present(items[id].imagePublicId) {
        r := Err(500, "Server Error");
        return;
      }
      items := items - {id};
      r := Ok(200, ());
    }
  }
}
