/** The Timeline schema (server/models/Timeline.js): required and trimmed
    text fields, the required date, gallery entries of the shape
    `{filePath, publicId, fileType}`, the `isKeyMilestone` default, the
    trimmed `impact`, and timestamps. The schema has no `achievement` path. */
module TimelineSchema {
  import opened Wrappers
  import opened JsonValues
  import Text

  /** A stored timeline entry. `date` is the instant the date string parsed
      to; `gallery` holds the entries as assigned. */
  datatype Timeline = Timeline(
    id: nat,
    title: string,
    description: string,
    date: int,
    gallery: seq<Json>,
    isKeyMilestone: bool,
    impact: string,
    createdAt: int,
    updatedAt: int)

  /** A gallery entry of the schema's shape. */
  function ImageEntry(filePath: string, publicId: string, fileType: string): (r: Json)
    ensures r.JObject? && r.fields.Keys == {"filePath", "publicId", "fileType"}
    ensures Field(r, "filePath") == Some(JString(filePath))
    ensures Field(r, "publicId") == Some(JString(publicId))
    ensures Field(r, "fileType") == Some(JString(fileType))
  {
    JObject(map["filePath" := JString(filePath), "publicId" := JString(publicId), "fileType" := JString(fileType)])
  }

  /** What the schema guarantees of every stored entry. */
  predicate Conforms(t: Timeline) {
    && t.title != [] && Text.Trimmed(t.title)
    && t.description != [] && Text.Trimmed(t.description)
    && Text.Trimmed(t.impact)
  }

  /** Builds and validates a new entry; `date` is None when the date string
      does not parse. Title, description and impact are trimmed first. */
  function NewTimeline(id: nat, title: string, description: string, date: Option<int>, gallery: seq<Json>,
                       isKeyMilestone: bool, impact: string, now: int): (r: Option<Timeline>)
    ensures r.Some? <==> Text.Trim(title) != [] && Text.Trim(description) != [] && date.Some?
    ensures r.Some? ==> Conforms(r.value)
    ensures r.Some? ==> && r.value.id == id && r.value.title == Text.Trim(title)
                        && r.value.description == Text.Trim(description) && r.value.date == date.value
                        && r.value.gallery == gallery && r.value.isKeyMilestone == isKeyMilestone
                        && r.value.impact == Text.Trim(impact)
                        && r.value.createdAt == now && r.value.updatedAt == now
  {
    var t := Text.Trim(title);
    var d := Text.Trim(description);
    if t == [] || d == [] || date.None? then None
    else Some(Timeline(id, t, d, date.value, gallery, isKeyMilestone, Text.Trim(impact), now, now))
  }

  /** The assignments of an update; `None` leaves a path alone. */
  datatype TimelineUpdate = TimelineUpdate(
    title: Option<string>,
    description: Option<string>,
    date: Option<string>,
    isKeyMilestone: Option<bool>,
    impact: Option<string>,
    gallery: Option<seq<Json>>)

  /** Applies and validates an update (setters first, then the validators of
      the paths being set); `parseDate` reads a date string. An empty date
      casts to null, which the `required` validator refuses. */
  function ApplyUpdate(t: Timeline, u: TimelineUpdate, parseDate: string -> Option<int>, now: int): (r: Option<Timeline>)
    ensures r.Some? <==> && (u.title.Some? ==> Text.Trim(u.title.value) != [])
                         && (u.description.Some? ==> Text.Trim(u.description.value) != [])
                         && (u.date.Some? ==> u.date.value != [] && parseDate(u.date.value).Some?)
    ensures r.Some? && Conforms(t) ==> Conforms(r.value)
    ensures r.Some? ==> r.value.id == t.id && r.value.createdAt == t.createdAt && r.value.updatedAt == now
    ensures r.Some? ==> && r.value.title == (if u.title.Some? then Text.Trim(u.title.value) else t.title)
                        && r.value.description == (if u.description.Some? then Text.Trim(u.description.value) else t.description)
                        && r.value.date == (if u.date.Some? then parseDate(u.date.value).value else t.date)
                        && r.value.isKeyMilestone == u.isKeyMilestone.GetOr(t.isKeyMilestone)
                        && r.value.impact == (if u.impact.Some? then Text.Trim(u.impact.value) else t.impact)
                        && r.value.gallery == u.gallery.GetOr(t.gallery)
  {
    var title := if u.title.Some? then Text.Trim(u.title.value) else t.title;
    var description := if u.description.Some? then Text.Trim(u.description.value) else t.description;
    var date := if u.date.None? then Some(t.date) else if u.date.value == [] then None else parseDate(u.date.value);
    if (u.title.Some? && title == []) || (u.description.Some? && description == []) || date.None? then None
    else
      Some(t.(title := title, description := description, date := date.value,
              isKeyMilestone := u.isKeyMilestone.GetOr(t.isKeyMilestone),
              impact := if u.impact.Some? then Text.Trim(u.impact.value) else t.impact,
              gallery := u.gallery.GetOr(t.gallery),
              updatedAt := now))
  }
}
