/** The Media schema (server/models/Media.js): fields, required flags, the
    `fileType` enum, defaults, timestamps, and the `mediaUrl` and
    `thumbnailUrl` getters. */
module MediaSchema {
  import opened Wrappers
  import opened JsonValues
  import Text

  const FileTypeValues: seq<string> := ["image", "video", "document", "audio"]

  /** A stored Media document. `uploadedBy` is the id of the user; `gallery`
      holds the values assigned to it, uncast. */
  datatype Media = Media(
    id: nat,
    title: string,
    description: string,
    fileName: string,
    filePath: string,
    thumbnailFileName: string,
    thumbnailPath: string,
    fileType: string,
    category: string,
    tabAssociation: string,
    uploadDate: int,
    uploadedBy: nat,
    duration: string,
    viewCount: nat,
    gallery: seq<Json>,
    createdAt: int,
    updatedAt: int)

  /** A value the `[String]` gallery path can cast: null, a boolean, a
      number or a string; a plain object or an array is a cast error. */
  predicate CastsToString(v: Json) {
    !v.JObject? && !v.JArray?
  }

  /** Every gallery value casts to a string. */
  predicate GalleryCasts(gallery: seq<Json>) {
    forall i :: 0 <= i < |gallery| ==> CastsToString(gallery[i])
  }

  /** What the schema guarantees of every saved document. */
  predicate Conforms(m: Media) {
    && m.title != [] && m.fileName != [] && m.filePath != [] && m.fileType in FileTypeValues
    && GalleryCasts(m.gallery)
  }

  /** The validation entries of a save: the gallery's cast error, recorded
      when the gallery was assigned, then the validators in schema order. */
  function SaveErrors(m: Media): (r: seq<string>)
    ensures r == [] <==> Conforms(m)
    ensures !GalleryCasts(m.gallery) ==> r != [] && r[0] == GalleryCastError
  {
    (if GalleryCasts(m.gallery) then [] else [GalleryCastError])
    + (if m.title == [] then ["title: Title is required"] else [])
    + (if m.fileName == [] then ["fileName: Filename is required"] else [])
    + (if m.filePath == [] then ["filePath: File path is required"] else [])
    + (if m.fileType in FileTypeValues then []
       else ["fileType: `" + m.fileType + "` is not a valid enum value for path `fileType`."])
  }

  const GalleryCastError: string := "gallery: Cast to [string] failed"

  /** The message of a failed save. */
  function SaveMessage(errs: seq<string>): string {
    "Media validation failed: " + Text.JoinWith(errs, ", ")
  }

  /** Validates the document before it is written. */
  function Save(m: Media): (r: Result<Media, string>)
    ensures r.Success? <==> Conforms(m)
    ensures r.Success? ==> r.value == m
    ensures r.Failure? ==> r.error == SaveMessage(SaveErrors(m))
  {
    var errs := SaveErrors(m);
    if errs == [] then Success(m) else Failure(SaveMessage(errs))
  }

  /** A new document with the schema defaults for every field the caller
      does not give: empty thumbnail and duration, an empty gallery, upload
      date and timestamps `now`. */
  function NewMedia(id: nat, title: string, description: string, fileName: string, filePath: string,
                    fileType: string, category: string, tabAssociation: string, uploadedBy: nat,
                    viewCount: nat, now: int): (r: Media)
    ensures r.thumbnailFileName == "" && r.thumbnailPath == "" && r.duration == "" && r.gallery == []
    ensures r.uploadDate == now && r.createdAt == now && r.updatedAt == now
    ensures r.id == id && r.title == title && r.description == description && r.fileName == fileName
    ensures r.filePath == filePath && r.fileType == fileType && r.category == category
    ensures r.tabAssociation == tabAssociation && r.uploadedBy == uploadedBy && r.viewCount == viewCount
  {
    Media(id, title, description, fileName, filePath, "", "", fileType, category, tabAssociation,
          now, uploadedBy, "", viewCount, [], now, now)
  }

  /** The `mediaUrl` getter. */
  function MediaUrl(m: Media): (r: string)
    ensures Conforms(m) ==> r != []
    ensures r == m.filePath
  {
    m.filePath
  }

  /** The `thumbnailUrl` getter: the thumbnail when there is one, else the
      main file. */
  function ThumbnailUrl(m: Media): (r: string)
    ensures m.thumbnailPath != [] ==> r == m.thumbnailPath
    ensures m.thumbnailPath == [] ==> r == m.filePath
    ensures Conforms(m) ==> r != []
  {
    if m.thumbnailPath != [] then m.thumbnailPath else m.filePath
  }
}
