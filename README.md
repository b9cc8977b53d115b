# A Dafny model of the farmer-advocacy content site

The site pairs an Express/Mongoose backend with a React front end. This
project models the parts of both that decide what happens to content. It
does not model rendering or transport.

- **Content stores.** There are three: information items, media items and
  timeline entries. Each controller's list, create, partial update and delete
  are modelled. Each store is a class holding a map from document id to
  record, with an id counter.
  - The methods state the HTTP status and body of every outcome, including
    the ones the code produces by accident:
    - the information controller's storage destroy, which always fails;
    - the media create, which drops the gallery;
    - local catch blocks that turn a 404 into a 500.
  - The Mongoose schemas become validity predicates, with their enums,
    `required` rules, trimming and defaults. Each operation is proved to keep
    every stored record valid.
- **Request normalisers.**
  - The media-type to `fileType` mapping.
  - Gallery parsing from JSON or comma-separated strings, and the `publicId`
    taken from a URL.
  - The `isKeyMilestone` coercion.
  - The upload configuration's choice of resource type, the sanitised
    category folder and the composed `public_id`. Splitting the composed id
    recovers its parts.
- **Front-end logic.**
  - The Information Center flattens grouped items into a tagged list, then
    filters, sorts and bookmarks them.
  - The admin dashboard's content management flattens the same shape and
    prepares the multipart submission. Its dynamic form holds initial data,
    previews and accumulated files.
  - The two registration forms: their validators, the phone-input sanitiser
    and `parseInt` as the age check reads it.
  - Gallery navigation in the content modal and the milestone card, which
    wraps around at both ends.
  - The Andolan timeline's category filter, year toggle, decade jump,
    progress and arrow-key navigation, which stops at both ends.
  - The homepage's pairing of milestones into rows.

- The server addresses information items by document id. There is no
  group-keyed create, update or delete.
- Status codes are those the catch blocks send.

Foreign collaborators become function parameters ("oracles") that may fail:
- storage upload and destroy;
- the clock;
- `JSON.parse`;
- date parsing.

## Model

| member | source | states |
|---|---|---|
| Text.TrimStart | server/models/Information.js:7 | the result is a suffix of the input, does not start with white space, and only white space was dropped |
| Text.TrimStartSpaces | server/models/Information.js:7 | leading white space before a non-space start is dropped whole |
| Text.TrimStartAppend | server/models/Information.js:7 | when the first part holds a non-space character, trimming the start of a concatenation trims only the first part |
| Text.TrimEnd | server/models/Information.js:7 | the result is a prefix of the input, does not end with white space, and only white space was dropped |
| Text.Trim | server/models/Information.js:7 | the result is the slice of the input between white-space margins, and neither starts nor ends with white space |
| Text.TrimStartAllSpace | server/models/Timeline.js:7 | dropping leading white space from a string of white space leaves nothing |
| Text.BlankIffAllSpace | server/models/Timeline.js:6-7 | a string trims to nothing exactly when it is all white space |
| Text.TrimmedFixed | server/models/Timeline.js:7 | trimming leaves a trimmed string unchanged |
| Text.TrimIdempotent | server/models/Timeline.js:7 | trimming twice is trimming once |
| Text.LowerChar | server/config/cloudinaryConfig.js:25 | an ASCII upper-case letter maps to the letter 32 code points on, and every other character is kept; the result is never an upper-case letter |
| Text.Lower | server/config/cloudinaryConfig.js:25 | lower-casing keeps the length and maps each character |
| Text.LowerAppend | server/config/cloudinaryConfig.js:38 | lower-casing a concatenation lower-cases each part |
| Text.LowerIdempotent | server/config/cloudinaryConfig.js:25-38 | lower-casing twice is lower-casing once |
| Text.ContainsIff | server/config/cloudinaryConfig.js:27-31 | `includes` holds exactly when the text is found at some offset |
| Text.IndexOf | server/controllers/mediaController.js:12 | the position found holds the character and no earlier position does |
| Text.Split | server/controllers/mediaController.js:12 | a split has at least one piece and no piece holds the separator |
| Text.JoinSplit | server/controllers/mediaController.js:12 | joining the pieces of a split gives back the string |
| Text.IndexOfAfter | server/controllers/mediaController.js:12 | the first separator after a separator-free prefix sits right after it |
| Text.SplitFront | server/controllers/mediaController.js:12 | splitting peels a separator-free prefix off the front |
| Text.SplitJoin | server/controllers/mediaController.js:87 | joining separator-free pieces and splitting again gives the pieces |
| Text.SplitNone | server/controllers/mediaController.js:12 | a string without the separator splits into itself alone |
| Text.AfterLast | server/controllers/mediaController.js:92 | the last piece of a split holds no separator |
| Text.BeforeFirst | server/controllers/mediaController.js:92 | the first piece of a split holds no separator |
| Text.PublicIdOf | server/controllers/mediaController.js:92 | the public id read from a URL holds neither '/' nor '.' |
| Text.AfterLastAppend | server/controllers/mediaController.js:92 | the last piece is unchanged by a separator-free prefix |
| Text.PublicIdOfShapedUrl | server/controllers/timelineController.js:95 | a URL of the shape dir/name.ext yields name as its public id |
| Text.KeepDigits | frontend/src/pages/member-registration-modal/components/RegistrationForm.jsx:144 | the result holds only ASCII digits, is never longer, a string of digits is unchanged, and a single character is kept exactly when it is a digit |
| Text.KeepDigitsAppend | frontend/src/pages/member-registration-modal/components/RegistrationForm.jsx:144 | the digits of a concatenation are those of each part, in order |
| Text.Take | frontend/src/pages/member-registration-modal/components/RegistrationForm.jsx:144 | slicing to n gives the whole string when it is short enough and its first n characters otherwise |
| Text.LastTwo | frontend/src/pages/homepage/components/MilestonesSection.jsx:171 | the result is the last two characters, or the whole of a shorter string |
| Text.DecimalString | server/config/cloudinaryConfig.js:45-49 | the decimal form of a number is a non-empty string of digits |
| Text.DigitValue | server/config/cloudinaryConfig.js:45 | a digit's value is below ten and writes back as the same digit |
| Text.DecimalRoundTrip | server/config/cloudinaryConfig.js:45-49 | reading back the decimal digits of a number gives the number |
| JsonValues.Field | server/controllers/timelineController.js:88 | a property read finds an own field of an object and nothing on any other value |
| Listing.SortedCons | server/controllers/informationController.js:9 | a head no smaller than the sorted tail's first element keeps the sequence sorted |
| Listing.InsertDesc | server/controllers/informationController.js:9 | inserting keeps the order non-increasing and adds exactly the one element |
| Listing.SortDesc | server/controllers/informationController.js:9 | sorting gives a non-increasing permutation of its input |
| Listing.NoDuplicatesCounts | server/controllers/informationController.js:9 | a sequence without duplicates holds each value at most once |
| Listing.CountsNoDuplicates | server/controllers/informationController.js:9 | a sequence holding each value at most once has no duplicates |
| Listing.PermutationNoDuplicates | server/controllers/informationController.js:9 | a permutation of a duplicate-free sequence is duplicate-free |
| Listing.KeysOf | server/controllers/informationController.js:9 | the keys of a store are collected, each exactly once |
| Listing.ListNewestFirst | server/controllers/informationController.js:9 | the listing holds every stored document once, each under its own id, newest first |
| Listing.DistinctCovers | server/controllers/informationController.js:9 | distinct keys as many as the key set name every key |
| Listing.ListingCoversStore | server/controllers/informationController.js:9 | a listing leaves out no stored document |
| InformationSchema.SetPath | server/models/Information.js:4-8 | the trim setter applies to `title` alone; every other path stores its value unchanged |
| InformationSchema.RequiredError | server/models/Information.js:4-12 | the `required` check on title and content fails exactly when the value is absent or empty |
| InformationSchema.EnumError | server/models/Information.js:21-30 | the `enum` check on status and category passes an absent value or a listed one, and fails on any other |
| InformationSchema.CreateErrors | server/models/Information.js:3-31 | a new document has no validation entry iff title and content are present and status and category, when given, are listed |
| InformationSchema.UpdateErrors | server/models/Information.js:3-31 | update validators check only the paths being set: no entry iff each set title/content is non-empty and each set status/category is listed |
| InformationSchema.NewInformation | server/models/Information.js:3-31 | a create succeeds iff validation finds nothing; the document then conforms, has the trimmed title, defaults 'draft' and 'Article', and both timestamps equal to now; a failure carries the joined validation entries |
| InformationSchema.Assignments | server/models/Information.js:3-31 | strict mode keeps only schema paths of the update, and each goes through its setter |
| InformationSchema.Assign | server/models/Information.js:3-31 | an update overwrites exactly the assigned paths, keeps id and createdAt, and stamps updatedAt |
| InformationSchema.AssignPreservesConformance | server/models/Information.js:3-31 | an update that passes its validators keeps a conforming document conforming |
| InformationController.UpdatedData | server/controllers/informationController.js:55-63 | the update data is the body, with imageUrl and imagePublicId overwritten by the uploaded file's path and filename when a file came |
| InformationController.CreateOutcome | server/controllers/informationController.js:21-36 | a create succeeds iff the trimmed title and the content are non-empty and status/category are listed; the image fields come from the file alone |
| InformationController.CreateIgnoresOtherFields | server/controllers/informationController.js:21-36 | body keys other than title, content, status and category never change the outcome of a create |
| InformationController.UpdateOutcome | server/controllers/informationController.js:55-72 | a file on a document with an image public id always fails (the destroy call is undefined); otherwise it fails with the validators' message, or succeeds keeping id and createdAt and conformance; otherwise it succeeds exactly when the update validators pass on the assigned paths, and then stores the document with those paths assigned |
| InformationController.UpdateSucceedsIffValid | server/controllers/informationController.js:55-72 | an update without a file succeeds iff the title, if given, is not blank once trimmed, the content, if given, is not empty, and status and category, if given, are enum members |
| InformationController.UpdateOverwritesBodyFields | server/controllers/informationController.js:55-68 | a successful update without a file takes each schema field from the body when named (title trimmed) and from the stored document otherwise |
| InformationController.UpdateWithFileSetsImage | server/controllers/informationController.js:57-63 | a successful update with a file sets both image fields from the file, whatever the body says |
| InformationController.InsertKeepsInvariant | server/controllers/informationController.js:29-38 | storing a conforming document under the next id keeps every document under its own id and conforming |
| InformationController.InformationStore.constructor | server/models/Information.js:33 | the collection starts empty and satisfies the store invariant |
| InformationController.InformationStore.GetInformationItems | server/controllers/informationController.js:7-14 | replies 200 with every stored document exactly once, newest createdAt first |
| InformationController.InformationStore.CreateInformationItem | server/controllers/informationController.js:19-42 | replies 201 and stores the new document under a fresh id when the create succeeds, else 400 with the message and the store unchanged |
| InformationController.InformationStore.UpdateInformationItem | server/controllers/informationController.js:47-74 | 404 for an unknown id; 200 and the stored document replaced on success; 400 and nothing changed on a failure |
| InformationController.InformationStore.DeleteInformationItem | server/controllers/informationController.js:79-97 | 404 for an unknown id; 500 and nothing removed when the document has an image public id; otherwise 200 and exactly that document removed |
| UploadParams.CloudName | server/config/cloudinaryConfig.js:6 | the cloud name is the configured one when set and non-empty, 'demo' otherwise, and never empty |
| UploadParams.TestFolderIffUnconfigured | server/config/cloudinaryConfig.js:6-18 | uploads go to the test folder exactly when no cloud name is configured or the configured name is 'demo' |
| UploadParams.UrlPath | server/config/cloudinaryConfig.js:25 | a missing or empty request URL reads as '/media'; otherwise it is the URL lower-cased |
| UploadParams.ResourceType | server/config/cloudinaryConfig.js:25-31 | the resource type is the first of media, programs, projects, team, members whose '/'-prefixed name the URL contains, and 'misc' iff it contains none |
| UploadParams.MissingUrlIsMedia | server/config/cloudinaryConfig.js:25-27 | a request without a URL is filed under 'media' |
| UploadParams.CollapseSpaces | server/config/cloudinaryConfig.js:39 | the result is never longer; a single white-space character becomes '-' and any other single character is kept |
| UploadParams.KeepAllowed | server/config/cloudinaryConfig.js:40 | the result holds only a-z, 0-9 and '-', is never longer, a string of those characters is unchanged, and a single character is kept exactly when it is allowed |
| UploadParams.Sanitise | server/config/cloudinaryConfig.js:36-40 | a sanitised category holds only a-z, 0-9 and '-', and is the lower-cased text with white-space runs collapsed to '-' and other characters dropped |
| UploadParams.Category | server/config/cloudinaryConfig.js:34-41 | the category is 'general' without a body, else the sanitised category, type or 'general', made of allowed characters only |
| UploadParams.SanitiseFixesAllowed | server/config/cloudinaryConfig.js:36-40 | a string already made of allowed characters is left unchanged |
| UploadParams.CollapseSpacesNoSpace | server/config/cloudinaryConfig.js:39 | collapsing leaves no white space |
| UploadParams.CollapseSpacesFixes | server/config/cloudinaryConfig.js:39 | a string without white space is unchanged |
| UploadParams.CollapseAppend | server/config/cloudinaryConfig.js:39 | collapsing a concatenation whose first part does not end in white space collapses each part |
| UploadParams.CollapseRun | server/config/cloudinaryConfig.js:39 | a run of white space between two parts becomes a single '-' |
| UploadParams.KeepAllowedAppend | server/config/cloudinaryConfig.js:40 | filtering a concatenation filters each part, in order |
| UploadParams.SanitiseWords | server/config/cloudinaryConfig.js:36-40 | two words of allowed characters separated by white space sanitise to the lower-cased words joined by '-' |
| UploadParams.CategorySource | server/config/cloudinaryConfig.js:36 | the category when non-empty, else the type when non-empty, else 'general'; never empty |
| UploadParams.CategoryOfTwoWords | server/config/cloudinaryConfig.js:34-41 | a category 'Policy Changes' names uploads 'policy-changes' |
| UploadParams.SanitiseIdempotent | server/config/cloudinaryConfig.js:36-40 | sanitising twice is sanitising once |
| UploadParams.PunctuationCategoryIsEmpty | server/config/cloudinaryConfig.js:36-40 | the 'general' fallback applies before sanitising, so a category of punctuation alone becomes the empty string |
| UploadParams.PadTwo | server/config/cloudinaryConfig.js:45 | a month 1..12 is written as exactly two digits |
| UploadParams.PadTwoReadsBack | server/config/cloudinaryConfig.js:45 | the two padded digits read back as the month |
| UploadParams.Timestamp | server/config/cloudinaryConfig.js:44-46 | the timestamp is the year, '_', and the padded one-based month |
| UploadParams.Folder | server/config/cloudinaryConfig.js:18-54 | uploads go to 'test_uploads' under the demo cloud and to one folder per resource type otherwise |
| UploadParams.UploadParamsFor | server/config/cloudinaryConfig.js:22-66 | the parameters have resource type 'auto', the folder of the resource type and the public id built from resource type, category, timestamp and clock |
| UploadParams.Fallback | server/config/cloudinaryConfig.js:67-75 | the fallback parameters use the uploads folder (or the test folder) and 'upload_' followed by the clock |
| UploadParams.FallbackFolderDistinct | server/config/cloudinaryConfig.js:52-71 | outside the demo cloud a fallback upload never lands in the folder of a regular one |
| UploadParams.JoinFive | server/config/cloudinaryConfig.js:49 | joining five parts with '_' is the nesting the public id template writes |
| UploadParams.SplitFive | server/config/cloudinaryConfig.js:49 | five '_'-free parts joined with '_' split back into the same five |
| UploadParams.PublicIdSplits | server/config/cloudinaryConfig.js:44-49 | a public id splits at '_' into resource type, category, year, padded month and clock |
| UploadParams.PublicIdDecodes | server/config/cloudinaryConfig.js:25-49 | every public id the configuration generates decodes that way, because neither resource type nor category can hold '_' |
| UploadParams.NoUnderscoreInResourceType | server/config/cloudinaryConfig.js:26-31 | no resource type contains '_' |
| UploadParams.NoUnderscoreInCategory | server/config/cloudinaryConfig.js:34-41 | no sanitised category contains '_' |
| Http.BodyField | server/controllers/mediaController.js:41 | a destructured body field is present exactly when the body names it, with the body's value |
| MediaSchema.SaveErrors | server/models/Media.js:3-62 | a save produces no validation entry iff title, fileName and filePath are non-empty, fileType is listed and every gallery value casts to a string; an uncastable gallery gives the cast error first |
| MediaSchema.Save | server/models/Media.js:3-49 | a save succeeds, unchanged, iff the document conforms, and fails with the joined validation entries otherwise |
| MediaSchema.NewMedia | server/models/Media.js:8-77 | a new document takes the schema defaults: empty thumbnail, duration and gallery, and upload date and both timestamps equal to now |
| MediaSchema.MediaUrl | server/models/Media.js:64-69 | the mediaUrl getter is the file path, non-empty on a conforming document |
| MediaSchema.ThumbnailUrl | server/models/Media.js:70-75 | the thumbnailUrl getter is the thumbnail path when there is one, else the file path, never empty on a conforming document |
| MediaController.Or | server/controllers/mediaController.js:117-122 | JavaScript logical-or on strings: a non-empty left side wins, else the right side |
| MediaController.TypeToFileType | server/controllers/mediaController.js:61-269 | 'News Article' maps to document, 'Documentary' and 'Video Series' to video, every other type to image; the result is always a listed fileType |
| MediaController.UpdatedFileType | server/controllers/mediaController.js:262-273 | a truthy type is mapped; otherwise a truthy fileType is taken as given; otherwise the current fileType stays |
| MediaController.NonEmptyTrimmed | server/controllers/mediaController.js:293-295 | the pieces kept are trimmed and non-empty, and never more than the pieces given |
| MediaController.NonEmptyTrimmedOne | server/controllers/mediaController.js:293-295 | one piece gives its trimmed text, or nothing when that is empty |
| MediaController.NonEmptyTrimmedAppend | server/controllers/mediaController.js:293-295 | the pieces of a concatenation are handled part by part, in order |
| MediaController.NonEmptyTrimmedCons | server/controllers/mediaController.js:88-89 | a trimmed non-empty first piece is kept in front of the rest |
| MediaController.NonEmptyTrimmedFixed | server/controllers/mediaController.js:88-89 | pieces already trimmed and non-empty pass through unchanged |
| MediaController.UrlList | server/controllers/mediaController.js:87-89 | every URL read from a comma-separated gallery string is trimmed and non-empty |
| MediaController.UrlListRoundTrip | server/controllers/mediaController.js:87-89 | clean URLs joined with commas read back as the same URLs, in order |
| MediaController.GalleryEntry | server/controllers/mediaController.js:90-93 | an entry holds the URL and the public id read from its last path segment before the first dot |
| MediaController.CommaGallery | server/controllers/mediaController.js:87-93 | the comma gallery has one entry per URL of the list, in order |
| MediaController.ParseGallery | server/controllers/mediaController.js:72-313 | '[object Object]' gives an empty gallery; JSON that parses gives its array; text that fails to parse gives the comma gallery when it holds ',' or 'http', else empty |
| MediaController.ParseGalleryOfUrls | server/controllers/mediaController.js:80-95 | two or more URLs sent comma-separated and not JSON come back as one entry per URL, with its public id |
| MediaController.JoinedListHasComma | server/controllers/mediaController.js:76-86 | a list of two or more URLs contains a comma and is never the '[object Object]' text |
| MediaController.Categories | server/controllers/mediaController.js:12 | the category list has one trimmed entry per comma-separated piece |
| MediaController.SingleCategoryQuery | server/controllers/mediaController.js:10-14 | a single clean category selects exactly the documents of that category |
| MediaController.Selected | server/controllers/mediaController.js:9-18 | the documents selected are exactly the stored ones matching the category and tabAssociation filters |
| Listing.Where | server/controllers/mediaController.js:9-18 | a find selects exactly the stored ids whose document passes the filter, each with its own document |
| MediaController.CreateOutcome | server/controllers/mediaController.js:38-159 | no title fails 'Title is required'; no main file fails next; with both, it succeeds iff the file has a name and a path; a success conforms and carries the title, the description and tabAssociation or '', the file's name, the mapped fileType, the category or 'MediaTab', the file path, the uploaded thumbnail's name and path (empty without one), view count 0, an empty duration and gallery, and now as upload date and both timestamps |
| MediaController.CreateIgnoresGallery | server/controllers/mediaController.js:69-112 | the gallery field never changes a create's outcome, since its assignment throws before the document exists and is swallowed |
| MediaController.Updated | server/controllers/mediaController.js:178-327 | an update keeps id, createdAt, uploadDate, viewCount and duration, records the user, and stamps updatedAt |
| MediaController.UpdatedFields | server/controllers/mediaController.js:186-325 | each field is taken from the body or the new files when given, and kept otherwise; a new thumbnail sets both thumbnailFileName and thumbnailPath; the gallery is reparsed only from a truthy field |
| MediaController.UpdateOutcome | server/controllers/mediaController.js:329-336 | an update succeeds iff the updated document conforms, and then stores exactly that document |
| MediaController.UpdateWithUrlListFails | server/controllers/mediaController.js:286-335 | a comma-separated URL list that is not JSON stores url/publicId objects in the string gallery, so the save fails with its validation message |
| MediaController.UpdateRejectsUnknownFileType | server/controllers/mediaController.js:270-329 | a fileType outside the enum, sent without a type, makes the save fail |
| MediaController.UpdateDestroys | server/controllers/mediaController.js:186-254 | exactly the old main file's id when a new main file came and the old thumbnail's id when a new thumbnail came, each when non-empty, main file first |
| MediaController.DeleteDestroys | server/controllers/mediaController.js:348-372 | exactly the non-empty ids of the main file and the thumbnail, the main file first, one entry each |
| MediaController.MediaStore.constructor | server/models/Media.js:88 | the collection starts empty and satisfies the store invariant |
| MediaController.MediaStore.GetMediaItems | server/controllers/mediaController.js:8-20 | the reply lists exactly the documents the query selects, each once, newest upload first |
| MediaController.MediaStore.GetMediaItemById | server/controllers/mediaController.js:25-33 | a stored id answers its document, any other id 404 'Media item not found' |
| Http.FoundById | server/controllers/timelineController.js:37-49 | a lookup by id succeeds with 200 and the stored document exactly when the id is stored, and otherwise answers 404 with the controller's message |
| MediaController.MediaStore.CreateMediaItem | server/controllers/mediaController.js:38-167 | a successful create stores the document under a fresh id and answers 201; every failure answers 500 and changes nothing |
| MediaController.MediaStore.UpdateMediaItem | server/controllers/mediaController.js:172-338 | an unknown id answers 500 (the 404 is caught); otherwise the destroy calls are made and the document is replaced when the save succeeds, else 500 and nothing changes |
| MediaController.MediaStore.DeleteMediaItem | server/controllers/mediaController.js:343-380 | an unknown id answers 404; otherwise the document is removed whatever the destroy calls do |
| MediaController.MediaStore.IncrementViewCount | server/controllers/mediaController.js:385-396 | the view count goes up by one and nothing else changes but the update time; an unknown id answers 404 |
| TimelineSchema.ImageEntry | server/models/Timeline.js:18-22 | a gallery entry has exactly the filePath, publicId and fileType keys, holding the given strings |
| TimelineSchema.NewTimeline | server/models/Timeline.js:3-41 | a new entry is stored iff the trimmed title and description are non-empty and the date parses; it then conforms, holds the trimmed texts and both timestamps equal to now |
| TimelineSchema.ApplyUpdate | server/models/Timeline.js:3-41 | an update succeeds iff each set title/description trims to non-empty and a set date is non-empty (the empty string casts to null, which `required` refuses) and parses; it keeps id and createdAt, stamps updatedAt, takes each set path (trimmed) and keeps the rest, and preserves conformance |
| TimelineController.KeyMilestoneOnCreate | server/controllers/timelineController.js:135 | on create the flag is true iff the value is the exact string 'true' or the boolean true |
| TimelineController.KeyMilestoneOnUpdate | server/controllers/timelineController.js:167-172 | on update a string becomes true iff it lower-cases to 'true', and false otherwise; other values pass through |
| TimelineController.KeyMilestoneCaseDiffers | server/controllers/timelineController.js:135-172 | the two coercions disagree on 'True': a create stores false and an update true |
| TimelineController.FilesGallery | server/controllers/timelineController.js:67-187 | uploaded files give one entry each, in order, from their path, filename and mime type |
| TimelineController.NormaliseItem | server/controllers/timelineController.js:86-100 | a string item becomes an image entry with the public id read from its URL; a null item throws; every other item is kept |
| TimelineController.NormaliseGallery | server/controllers/timelineController.js:86-211 | normalisation throws iff some item is null, and otherwise maps every item, leaving no null |
| TimelineController.CreateGallery | server/controllers/timelineController.js:66-104 | files take precedence over galleryData; no or unparseable galleryData leaves the gallery empty; parsed galleryData gives its normalised items, or the raw items when one is null |
| TimelineController.CreateGalleryOfUrls | server/controllers/timelineController.js:66-104 | galleryData that parses to URL strings gives one image entry per URL, in order, with the URL's last segment as public id |
| TimelineController.UpdateGallery | server/controllers/timelineController.js:178-215 | files replace the gallery; no galleryData leaves it alone; otherwise the parsed and normalised list is assigned, and a parse failure or null item leaves the gallery alone |
| TimelineController.UploadStep | server/controllers/timelineController.js:108-236 | a turn throws iff the item is null or its truthy data is not a string; a 'data:image' item is replaced by the uploaded image, or kept when the upload fails; other items are kept |
| TimelineController.UploadAll | server/controllers/timelineController.js:107-238 | the loop completes iff no turn throws, and then gives each item's turn result, in order |
| TimelineController.UploadAllNoNull | server/controllers/timelineController.js:107-127 | a gallery that went through the loop holds no null |
| TimelineController.UploadInlineImages | server/controllers/timelineController.js:107-127 | the in-place loop over the gallery computes the same result as UploadAll, the turn-by-turn definition, including the throw |
| TimelineController.UploadAllPrefixFails | server/controllers/timelineController.js:108-125 | once a turn throws, the whole loop throws |
| TimelineController.Selected | server/controllers/timelineController.js:10-18 | the entries selected are exactly the stored ones whose flag equals (parameter == 'true'), or all of them without a truthy parameter |
| TimelineController.FlagField | server/controllers/timelineController.js:56-165 | the flag field is present exactly when the body names it |
| TimelineController.CreateOutcome | server/controllers/timelineController.js:54-151 | a missing title, description or date answers 400; any other failure answers 500; success (201) needs trimmed non-empty texts, a parsing date and a loop that does not throw, and gives a conforming entry without null gallery items |
| TimelineController.CreatedEntry | server/controllers/timelineController.js:129-138 | a created entry holds the trimmed title and description, the parsed date, the coerced flag, the trimmed impact, the gallery after the loop, and now in both timestamps |
| TimelineController.CreateIgnoresAchievement | server/controllers/timelineController.js:56-137 | `achievement`, which the schema lacks, and every other unread body key leave a create unchanged |
| TimelineController.NullGalleryItemFailsCreate | server/controllers/timelineController.js:82-109 | a parsed galleryData holding a null answers 500: the null survives the failed normalisation and the loop throws on it |
| TimelineController.UpdateOf | server/controllers/timelineController.js:165-174 | the update sets the flag iff the body names it, to whether it lower-cases to 'true', carries the given gallery, and takes title, description, date and impact from the body, absent when the body lacks them |
| TimelineController.UpdateOutcome | server/controllers/timelineController.js:165-244 | with no new gallery the update is ApplyUpdate of the body; with one it fails when the upload loop throws and is otherwise ApplyUpdate with the uploaded gallery; a success keeps id, createdAt, conformance and null-free galleries and stamps updatedAt |
| TimelineController.UpdatedEntry | server/controllers/timelineController.js:165-244 | a successful update stores the trimmed title, description and impact and the parsed date the body gives, and keeps the stored value of each one the body leaves out; a date it was given is never empty |
| TimelineController.EmptyDateFailsUpdate | server/controllers/timelineController.js:240-243 | an update whose body sends an empty date fails, whatever the date parser makes of the empty string |
| TimelineController.UpdateKeepsGalleryOnBadData | server/controllers/timelineController.js:190-215 | galleryData that does not parse, or holds a null, leaves the stored gallery as it was |
| TimelineController.PublicIds | server/controllers/timelineController.js:271-282 | the ids sent to destroy are truthy, no more than the gallery's items, include every truthy publicId of the gallery, and one entry gives its publicId when truthy and nothing otherwise |
| TimelineController.PublicIdsAppend | server/controllers/timelineController.js:271-282 | the ids of a concatenation are those of each part, in order |
| TimelineController.PublicIdsSound | server/controllers/timelineController.js:271-282 | every id sent is the truthy publicId of some gallery entry |
| TimelineController.AddKeepsInvariant | server/controllers/timelineController.js:130-138 | storing a conforming, null-free entry under the next id keeps the store invariant |
| TimelineController.BuildTimeline | server/controllers/timelineController.js:54-151 | the step-by-step create, with its upload loop, answers exactly what CreateOutcome specifies |
| TimelineController.TimelineStore.constructor | server/models/Timeline.js:43 | the collection starts empty and satisfies the store invariant |
| TimelineController.TimelineStore.GetTimelines | server/controllers/timelineController.js:8-32 | answers 200 with exactly the selected entries, each once, newest date first, and their count |
| TimelineController.TimelineStore.GetTimelineById | server/controllers/timelineController.js:37-49 | a stored id answers its entry, any other id 404 'Timeline entry not found' |
| TimelineController.TimelineStore.CreateTimeline | server/controllers/timelineController.js:54-151 | answers CreateOutcome on the next id, storing the entry under that id exactly when it succeeds |
| TimelineController.TimelineStore.UpdateTimeline | server/controllers/timelineController.js:156-257 | every failure, the unknown id included, answers 500 and changes nothing; success answers 200 and replaces exactly that entry |
| TimelineController.TimelineStore.DeleteTimeline | server/controllers/timelineController.js:262-290 | an unknown id answers 404; otherwise every truthy public id is sent to destroy and the entry is removed regardless |
| ContentManagement.FetchedList | frontend/src/pages/admin-dashboard/components/ContentManagement.jsx:45-57 | a tab shows the bare array, else the enveloped data, else an empty list |
| ContentManagement.EnvelopeIrrelevant | frontend/src/pages/admin-dashboard/components/ContentManagement.jsx:45-57 | a bare and an enveloped response with the same items show the same list |
| ContentManagement.FlattenStrict | frontend/src/pages/admin-dashboard/components/ContentManagement.jsx:63-72 | the information tab's flatMap completes iff every group has its items |
| ContentManagement.FlattenStrictAgrees | frontend/src/pages/admin-dashboard/components/ContentManagement.jsx:67-72 | when every group has its items, the admin tab and the public information page flatten to the same list |
| ContentManagement.PrepareForEdit | frontend/src/pages/admin-dashboard/components/ContentManagement.jsx:97-129 | outside the media tab the item is copied unchanged; on it, type is derived from fileType and the missing mediaUrl/thumbnailUrl are filled from the stored paths; type, mediaUrl and thumbnailUrl keep their presence and value when their rule does not apply, and no other key changes |
| ContentManagement.PrepareForEditIdempotent | frontend/src/pages/admin-dashboard/components/ContentManagement.jsx:97-129 | preparing an already prepared item changes nothing more |
| ContentManagement.Lookup | frontend/src/pages/admin-dashboard/components/ContentManagement.jsx:217-224 | a value read from the form is one the form holds under that key, or missing |
| ContentManagement.LookupAbsent | frontend/src/pages/admin-dashboard/components/ContentManagement.jsx:217-224 | a key no entry carries reads as undefined |
| ContentManagement.LookupFirst | frontend/src/pages/admin-dashboard/components/ContentManagement.jsx:217-224 | the first entry carrying the key gives the value read |
| ContentManagement.Remove | frontend/src/pages/admin-dashboard/components/ContentManagement.jsx:225-266 | deleting a key keeps exactly the entries under other keys |
| ContentManagement.Put | frontend/src/pages/admin-dashboard/components/ContentManagement.jsx:260-265 | an assignment holds the new entry and keeps exactly the entries under other keys |
| ContentManagement.LookupRemove | frontend/src/pages/admin-dashboard/components/ContentManagement.jsx:225 | deleting one key leaves every other key's value as it was |
| ContentManagement.LookupRemoveSame | frontend/src/pages/admin-dashboard/components/ContentManagement.jsx:225 | after deleting a key it reads as undefined |
| ContentManagement.LookupPutSame | frontend/src/pages/admin-dashboard/components/ContentManagement.jsx:265 | reading back a key just written gives the written value |
| ContentManagement.LookupPut | frontend/src/pages/admin-dashboard/components/ContentManagement.jsx:260-265 | writing one key leaves every other key's value as it was |
| ContentManagement.SkipList | frontend/src/pages/admin-dashboard/components/ContentManagement.jsx:211-221 | a field is skipped iff the item is edited and it is one of the six file fields, present in the form and falsy |
| ContentManagement.SkipAmong | frontend/src/pages/admin-dashboard/components/ContentManagement.jsx:215-220 | among the names given, exactly those present and falsy are collected |
| ContentManagement.GalleryFiles | frontend/src/pages/admin-dashboard/components/ContentManagement.jsx:228-233 | every entry is a 'gallery' file taken from the list, every uploaded file of the list is appended, and one item gives one entry exactly when it is a file |
| ContentManagement.GalleryFilesAppend | frontend/src/pages/admin-dashboard/components/ContentManagement.jsx:228-233 | the entries of a concatenation are those of each part, in order |
| ContentManagement.Existing | frontend/src/pages/admin-dashboard/components/ContentManagement.jsx:241-246 | the kept images are exactly the previews not starting with 'blob:', each with the public id read from its URL; one preview gives one image or none |
| ContentManagement.ExistingAppend | frontend/src/pages/admin-dashboard/components/ContentManagement.jsx:241-246 | the kept images of a concatenation are those of each part, in order, so the previews' order is kept |
| ContentManagement.GalleryEntries | frontend/src/pages/admin-dashboard/components/ContentManagement.jsx:224-254 | with gallery files the entries are exactly those files; when editing without files, clearGallery, then existingGallery with the previews as JSON, then replaceGallery are sent as the flags say; with no files and nothing to keep nothing is sent |
| ContentManagement.FieldEntries | frontend/src/pages/admin-dashboard/components/ContentManagement.jsx:269-274 | every entry sent is a set, non-skipped value the form holds under that key |
| ContentManagement.FieldEntriesComplete | frontend/src/pages/admin-dashboard/components/ContentManagement.jsx:269-274 | every set value whose key is not skipped is sent |
| ContentManagement.CollectSkipList | frontend/src/pages/admin-dashboard/components/ContentManagement.jsx:211-221 | the loop over the file fields collects exactly SkipList |
| ContentManagement.AppendGalleryFiles | frontend/src/pages/admin-dashboard/components/ContentManagement.jsx:227-233 | the loop over the gallery list appends exactly GalleryFiles |
| ContentManagement.AppendFields | frontend/src/pages/admin-dashboard/components/ContentManagement.jsx:269-274 | the loop over the form keys appends exactly FieldEntries |
| ContentManagement.AppendGallery | frontend/src/pages/admin-dashboard/components/ContentManagement.jsx:222-254 | the gallery branch appends exactly GalleryEntries: the chosen files and the replace flag, or else the clear, existing-gallery or replace flag of an edit |
| ContentManagement.PrepareSubmission | frontend/src/pages/admin-dashboard/components/ContentManagement.jsx:198-277 | the submit appends the gallery entries and then the remaining fields, as Submission specifies; the form object it was handed is left edited in place, without its gallery, with the date converted and the title moved to name |
| ContentManagement.Submission | frontend/src/pages/admin-dashboard/components/ContentManagement.jsx:198-273 | a submit sends the gallery entries first; after them nothing goes under 'gallery', no file field left empty on an edit is sent, and every entry is a defined plain value |
| ContentManagement.RetrySendsNoGalleryFiles | frontend/src/pages/admin-dashboard/components/ContentManagement.jsx:198-304 | after a failed request keeps the form open, a second submit starts from the edited object and sends no gallery file |
| ContentManagement.NoMissingSent | frontend/src/pages/admin-dashboard/components/ContentManagement.jsx:271 | null and undefined values are never sent |
| ContentManagement.SkippedFileFieldsNotSent | frontend/src/pages/admin-dashboard/components/ContentManagement.jsx:214-270 | when editing, a file field left empty is not sent |
| ContentManagement.NormalisedLacksGallery | frontend/src/pages/admin-dashboard/components/ContentManagement.jsx:225-267 | after the delete, the date and rename steps never bring back a 'gallery' key |
| ContentManagement.TypedGalleryNeverSent | frontend/src/pages/admin-dashboard/components/ContentManagement.jsx:224-323 | URLs typed in the media tab's gallery text area are never sent under 'gallery' |
| ContentManagement.RenamedValues | frontend/src/pages/admin-dashboard/components/ContentManagement.jsx:264-267 | for programs and projects with a title and no name, name takes the title and title is gone |
| ContentManagement.Normalised | frontend/src/pages/admin-dashboard/components/ContentManagement.jsx:256-267 | expectedStartDate becomes its ISO string when it is set and parses, and is otherwise unchanged; when the rename applies name holds the title and title reads as undefined, and otherwise both are unchanged |
| ContentManagement.Dated | frontend/src/pages/admin-dashboard/components/ContentManagement.jsx:256-262 | a set expectedStartDate that parses becomes its ISO string, and every other key reads as before |
| ContentManagement.RenameTitle | frontend/src/pages/admin-dashboard/components/ContentManagement.jsx:264-267 | for programs and projects with a truthy title and no truthy name, name takes the title and title reads as undefined; otherwise the values are unchanged; other keys read as before |
| ContentManagement.SubmissionLacks | frontend/src/pages/admin-dashboard/components/ContentManagement.jsx:198-277 | a key that is no gallery flag and that the normalised values lack is never sent |
| ContentManagement.TitleSentAsName | frontend/src/pages/admin-dashboard/components/ContentManagement.jsx:264-274 | for programs and projects a set title goes out as name when no name is set |
| ContentManagement.TitleNotSent | frontend/src/pages/admin-dashboard/components/ContentManagement.jsx:264-274 | under the same conditions no title entry is sent |
| ContentManagement.DeleteRequest | frontend/src/pages/admin-dashboard/components/ContentManagement.jsx:148-178 | a delete goes out iff the item has a truthy _id, to the tab's service, and an unknown tab is rejected |
| ContentManagement.SubmitRequest | frontend/src/pages/admin-dashboard/components/ContentManagement.jsx:279-298 | a submit updates iff the current item has a truthy _id, creates otherwise, and is rejected exactly for an unknown tab |
| ContentManagement.FormConfig | frontend/src/pages/admin-dashboard/components/ContentManagement.jsx:311-375 | an unknown tab has no fields; in every form, file fields other than the thumbnail are required exactly for a new item and the thumbnail never is |
| ContentManagement.MediaForm | frontend/src/pages/admin-dashboard/components/ContentManagement.jsx:316-326 | the media form's main file is required only for a new item and its thumbnail never |
| ContentManagement.ProgramsForm | frontend/src/pages/admin-dashboard/components/ContentManagement.jsx:327-337 | the programs form's cover image is required only for a new item |
| ContentManagement.ProjectsForm | frontend/src/pages/admin-dashboard/components/ContentManagement.jsx:338-350 | the projects form's cover image is required only for a new item |
| ContentManagement.TeamForm | frontend/src/pages/admin-dashboard/components/ContentManagement.jsx:351-359 | the team form's photo is required only for a new member |
| ContentManagement.InformationForm | frontend/src/pages/admin-dashboard/components/ContentManagement.jsx:360-371 | the information form's image is required only for a new item |
| ContentManagement.MediaGalleryIsText | frontend/src/pages/admin-dashboard/components/ContentManagement.jsx:323 | the media form's gallery is a text area, and no other kind of field bears that name there |
| ContentManagement.EditFormWithoutIdCreates | frontend/src/pages/admin-dashboard/components/ContentManagement.jsx:280-313 | an open item without an _id gets the edit form, whose file fields are optional, and is then created |
| InformationCenter.Tagged | frontend/src/pages/information-center-page/index.jsx:45-48 | a group without items gives none; otherwise each of its items, in order, tagged with the group's title |
| InformationCenter.Flattened | frontend/src/pages/information-center-page/index.jsx:42-51 | the flat list is as long as all the groups' items together |
| InformationCenter.FlattenedMembers | frontend/src/pages/information-center-page/index.jsx:42-51 | an item is in the flat list exactly when it is a tagged copy of an item of some group |
| InformationCenter.FlattenGroups | frontend/src/pages/information-center-page/index.jsx:39-53 | the forEach/push loop over the response's groups (none without data) builds exactly the flat list |
| InformationCenter.Filter | frontend/src/pages/information-center-page/index.jsx:66-86 | an item is kept exactly when it passes the category, region and case-insensitive search tests |
| InformationCenter.Keep | frontend/src/pages/information-center-page/index.jsx:67-84 | a kept item is in the chosen category and in the chosen region or in all regions; with an empty query and both filters 'all' every item is kept |
| InformationCenter.KeepIgnoresQueryCase | frontend/src/pages/information-center-page/index.jsx:79-80 | a query and its lower-cased form keep the same items |
| InformationCenter.FilterIsSubsequence | frontend/src/pages/information-center-page/index.jsx:66-86 | filtering keeps the relative order of the items it keeps |
| InformationCenter.FilterKeepsAllKept | frontend/src/pages/information-center-page/index.jsx:66-86 | a list whose every item passes the tests comes back unchanged |
| InformationCenter.ResetFiltersKeepAll | frontend/src/pages/information-center-page/index.jsx:66-86 | with the initial settings (empty query, category and region 'all') every item is kept |
| InformationCenter.FilterIdempotent | frontend/src/pages/information-center-page/index.jsx:66-86 | filtering twice with the same settings is filtering once |
| InformationCenter.SortContent | frontend/src/pages/information-center-page/index.jsx:88-97 | 'engagement' and 'date' give a permutation sorted highest first by that key; any other mode keeps the list as it is |
| InformationCenter.Without | frontend/src/pages/information-center-page/index.jsx:110 | the filtered list holds every other id and not the removed one |
| InformationCenter.ToggleBookmark | frontend/src/pages/information-center-page/index.jsx:108-114 | a toggled id is bookmarked exactly when it was not, every other id keeps its state, and a new id is appended |
| InformationCenter.ToggleTwice | frontend/src/pages/information-center-page/index.jsx:108-114 | toggling twice restores which ids are bookmarked, and restores the list itself when the id was absent |
| InformationCenter.WithoutAppended | frontend/src/pages/information-center-page/index.jsx:110-112 | removing an id just appended to a list without it gives back the list |
| InformationCenter.SectionItems | frontend/src/pages/information-center-page/index.jsx:336-338 | a section lists exactly the items of its group that pass the filter, as a permutation of the filtered group, sorted highest first by engagement or date when that sort is chosen and in list order otherwise |
| InformationCenter.InGroup | frontend/src/pages/information-center-page/index.jsx:337 | the group's items are exactly the flat items tagged with that group |
| InformationCenter.RenderedSections | frontend/src/pages/information-center-page/index.jsx:26-31 | a section is rendered exactly when its list is non-empty |
| InformationCenter.SectionsWithItems | frontend/src/pages/information-center-page/index.jsx:335-340 | among the sections given, exactly those with a non-empty list are kept |
| DynamicForm.Get | frontend/src/pages/admin-dashboard/components/DynamicForm.jsx:121 | an optional-chained read is defined exactly when there is an item that has the field |
| DynamicForm.Or | frontend/src/pages/admin-dashboard/components/DynamicForm.jsx:35-118 | JavaScript logical-or: a truthy left side wins, else the right side |
| DynamicForm.FromJson | frontend/src/pages/admin-dashboard/components/DynamicForm.jsx:121 | an absent or null value is held as missing, and the held value is truthy exactly when the read one is |
| DynamicForm.Preview | frontend/src/pages/admin-dashboard/components/DynamicForm.jsx:63-74 | a non-empty string is its own preview; an object gives its truthy url, else '/uploads/' and its publicId, else its path, else its filePath, else none; anything else gives none; every preview is truthy |
| DynamicForm.Previews | frontend/src/pages/admin-dashboard/components/DynamicForm.jsx:63-75 | the filtered list holds only truthy previews, no more than the images, the preview of every image that has one, and one image gives its preview or nothing |
| DynamicForm.PreviewsAppend | frontend/src/pages/admin-dashboard/components/DynamicForm.jsx:63-75 | the previews of a concatenation are those of each part, in order |
| DynamicForm.PreviewsSound | frontend/src/pages/admin-dashboard/components/DynamicForm.jsx:63-75 | every preview in the list is the preview of one of the images |
| DynamicForm.GalleryImages | frontend/src/pages/admin-dashboard/components/DynamicForm.jsx:58-60 | an array gallery is taken as it is; any other value is a one-element list when truthy and empty otherwise |
| DynamicForm.InitialGallery | frontend/src/pages/admin-dashboard/components/DynamicForm.jsx:55-82 | a multi-file field starts with no previews unless it is 'gallery' on an item with a truthy gallery |
| DynamicForm.GalleryText | frontend/src/pages/admin-dashboard/components/DynamicForm.jsx:95-96 | joining a text-area gallery throws exactly when an entry is null, and otherwise gives each entry's string or url, or '', joined with ', ' |
| DynamicForm.VideoOption | frontend/src/pages/admin-dashboard/components/DynamicForm.jsx:106-109 | the chosen option is the first option naming a video type, or 'Documentary' when none does |
| DynamicForm.InitialValue | frontend/src/pages/admin-dashboard/components/DynamicForm.jsx:49-122 | file fields start empty and multi-file fields with no uploads; a set date is reformatted; a set gallery in a text field becomes its joined text when it is an array and is taken as it is otherwise; 'type' follows fileType (document gives 'News Article', video the video option, else the item's value or ''); name and title take own, then title, then name, then ''; every other field takes the item's value or '' |
| DynamicForm.NameFromTitle | frontend/src/pages/admin-dashboard/components/DynamicForm.jsx:116-118 | an item with only a title fills the 'name' field with it |
| DynamicForm.FieldFromItem | frontend/src/pages/admin-dashboard/components/DynamicForm.jsx:120-121 | an ordinary field takes the item's non-empty string value |
| DynamicForm.InitialPreview | frontend/src/pages/admin-dashboard/components/DynamicForm.jsx:32-47 | the main file previews mediaUrl or filePath, the thumbnail thumbnailUrl or thumbnailPath, and any other file field its name + 'Url', then its own value, then filePath |
| DynamicForm.Step | frontend/src/pages/admin-dashboard/components/DynamicForm.jsx:28-123 | one pass of the field loop throws exactly when that field's initial value does; otherwise it writes that value under the field's name, leaves every other value, sets a file field's preview when editing and a multi-file field's preview list and empty accumulator, and changes nothing else |
| DynamicForm.InitialState | frontend/src/pages/admin-dashboard/components/DynamicForm.jsx:10-128 | initialisation throws exactly when some configured field's initial value throws |
| DynamicForm.Initialise | frontend/src/pages/admin-dashboard/components/DynamicForm.jsx:10-128 | the loop over the configuration computes the state InitialState specifies, including the throw |
| DynamicForm.InitialFieldValue | frontend/src/pages/admin-dashboard/components/DynamicForm.jsx:28-123 | after initialisation each field's value is its initial value, a file field's preview and a multi-file field's preview list are the ones built from the item, unless a later field has the same name |
| DynamicForm.UnconfiguredKeyMissing | frontend/src/pages/admin-dashboard/components/DynamicForm.jsx:28-123 | a key no configured field names is not among the form values |
| DynamicForm.NoneStaysNone | frontend/src/pages/admin-dashboard/components/DynamicForm.jsx:28-123 | once a field throws, the whole initialisation throws |
| DynamicForm.AccumulatorStartsEmpty | frontend/src/pages/admin-dashboard/components/DynamicForm.jsx:49-52 | every multi-file field starts with an empty file accumulator, and the accumulator holds nothing else |
| DynamicForm.GalleryStartsFromItem | frontend/src/pages/admin-dashboard/components/DynamicForm.jsx:49-82 | a multi-file 'gallery' field starts with the stored gallery's previews and an empty accumulator |
| DynamicForm.EditedGalleryMisaligned | frontend/src/pages/admin-dashboard/components/DynamicForm.jsx:52-63 | when editing an item with a stored image, the preview list holds that image while the file list is empty, so the two lists are not aligned |
| DynamicForm.StringImageKept | frontend/src/pages/admin-dashboard/components/DynamicForm.jsx:55-74 | a non-empty image URL stored in an item's gallery is among the previews the gallery field starts with |
| DynamicForm.HandleChange | frontend/src/pages/admin-dashboard/components/DynamicForm.jsx:130-184 | a text or single-file change sets exactly that field (a missing file clears it), adds a preview for a chosen file, and changes nothing else |
| DynamicForm.RemoveAt | frontend/src/pages/admin-dashboard/components/DynamicForm.jsx:191-204 | splice(start, 1) removes the element at an index in range, counts a negative start from the end, and removes nothing past the end |
| DynamicForm.ObjectUrls | frontend/src/pages/admin-dashboard/components/DynamicForm.jsx:141 | each chosen file gets one object-URL preview, in order |
| DynamicForm.AsUploads | frontend/src/pages/admin-dashboard/components/DynamicForm.jsx:145-156 | each accumulated file is one upload value, in order |
| DynamicForm.GalleryInput.constructor | frontend/src/pages/admin-dashboard/components/DynamicForm.jsx:51-63 | a multi-file input starts with no files, no uploads, and the stored gallery's previews |
| DynamicForm.GalleryInput.AddFiles | frontend/src/pages/admin-dashboard/components/DynamicForm.jsx:134-169 | new files go after those held, with one preview each, and the form value is the whole list; an empty selection changes nothing |
| DynamicForm.GalleryInput.RemoveFile | frontend/src/pages/admin-dashboard/components/DynamicForm.jsx:187-207 | the same position is removed from the files and from the previews, and the form value follows the files |
| DynamicForm.AlignedStaysAligned | frontend/src/pages/admin-dashboard/components/DynamicForm.jsx:134-207 | for a new item, adding and removing keep one preview per file |
| DynamicForm.RemoveAfterEditMisaligned | frontend/src/pages/admin-dashboard/components/DynamicForm.jsx:187-207 | after editing an item with stored images, removing the first preview removes a stored image but drops the first new file |
| ContentModal.Next | frontend/src/pages/our-vision-mission-page/components/ContentModal.jsx:318 | the next index stays within the gallery, moves one on before the last image and wraps to the first from the last |
| ContentModal.Prev | frontend/src/pages/our-vision-mission-page/components/ContentModal.jsx:298 | the previous index stays within the gallery, moves one back after the first image and wraps to the last from the first |
| ContentModal.NextPrevInverse | frontend/src/pages/our-vision-mission-page/components/ContentModal.jsx:298-318 | on every index of the gallery, previous undoes next and next undoes previous |
| ContentModal.NextTimes | frontend/src/pages/our-vision-mission-page/components/ContentModal.jsx:318 | any number of presses of next keeps the index within the gallery |
| ContentModal.PrevTimes | frontend/src/pages/our-vision-mission-page/components/ContentModal.jsx:298 | any number of presses of previous keeps the index within the gallery |
| ContentModal.NextTimesAdd | frontend/src/pages/our-vision-mission-page/components/ContentModal.jsx:318 | a presses of next followed by b more land where a + b presses do |
| ContentModal.PrevTimesAdd | frontend/src/pages/our-vision-mission-page/components/ContentModal.jsx:298 | a presses of previous followed by b more land where a + b presses do |
| ContentModal.NextTimesClimb | frontend/src/pages/our-vision-mission-page/components/ContentModal.jsx:318 | while the end is not reached, k presses of next move exactly k images on |
| ContentModal.PrevTimesDescend | frontend/src/pages/our-vision-mission-page/components/ContentModal.jsx:298 | while the start is not reached, k presses of previous move exactly k images back |
| ContentModal.NextFullRound | frontend/src/pages/our-vision-mission-page/components/ContentModal.jsx:318 | n presses of next in a gallery of n images return to the starting image |
| ContentModal.PrevFullRound | frontend/src/pages/our-vision-mission-page/components/ContentModal.jsx:298 | n presses of previous in a gallery of n images return to the starting image |
| ContentModal.Periodic | frontend/src/pages/our-vision-mission-page/components/ContentModal.jsx:298-318 | navigation in either direction is periodic with the gallery's size |
| ContentModal.Swipe | frontend/src/pages/our-vision-mission-page/components/ContentModal.jsx:37-48 | a swipe of more than 50 pixels leftwards acts as next, rightwards as previous, anything shorter leaves the index, and the index stays in range |
| ContentModal.Normalise | frontend/src/pages/our-vision-mission-page/components/ContentModal.jsx:17-21 | a string image is kept; an object's truthy url is its source; else '/uploads/' followed by its truthy publicId, or by nothing |
| ContentModal.NormaliseStable | frontend/src/pages/our-vision-mission-page/components/ContentModal.jsx:17-21 | normalising an image already normalised to a string changes nothing |
| ContentModal.NormaliseAll | frontend/src/pages/our-vision-mission-page/components/ContentModal.jsx:17-21 | the viewer's list has one normalised entry per gallery image, in the same order |
| ContentModal.Thumbnail | frontend/src/pages/our-vision-mission-page/components/ContentModal.jsx:138-160 | a thumbnail is shown only with a truthy source; an object with neither url nor publicId and an empty string are skipped |
| ContentModal.ThumbnailMatchesViewer | frontend/src/pages/our-vision-mission-page/components/ContentModal.jsx:17-21 | whenever a thumbnail is shown, the viewer opened on it shows the same source |
| ContentModal.Thumbnails | frontend/src/pages/our-vision-mission-page/components/ContentModal.jsx:124-178 | the rendered thumbnails are exactly the gallery positions with a shown source, in increasing position |
| ContentModal.ThumbnailsFrom | frontend/src/pages/our-vision-mission-page/components/ContentModal.jsx:136-178 | from a position on, the rendered thumbnails are exactly the later positions with a shown source, in increasing position |
| ContentModal.ThumbnailOpensInRange | frontend/src/pages/our-vision-mission-page/components/ContentModal.jsx:166 | a clicked thumbnail opens the viewer on a position inside the gallery, showing the same source |
| ContentModal.GalleryViewer.constructor | frontend/src/pages/our-vision-mission-page/components/ContentModal.jsx:9-11 | the viewer starts closed, at index 0, with no images |
| ContentModal.GalleryViewer.OpenGallery | frontend/src/pages/our-vision-mission-page/components/ContentModal.jsx:16-26 | opening stores the normalised list and the index and shows the viewer; the index is valid exactly when it lies in the gallery |
| ContentModal.GalleryViewer.ShowNext | frontend/src/pages/our-vision-mission-page/components/ContentModal.jsx:316-319 | the right button moves to the next index and keeps a valid index valid |
| ContentModal.GalleryViewer.ShowPrevious | frontend/src/pages/our-vision-mission-page/components/ContentModal.jsx:296-299 | the left button moves to the previous index and keeps a valid index valid |
| ContentModal.GalleryViewer.SwipeFrom | frontend/src/pages/our-vision-mission-page/components/ContentModal.jsx:37-48 | a completed swipe applies the swipe rule and keeps a valid index valid |
| ContentModal.GalleryViewer.Close | frontend/src/pages/our-vision-mission-page/components/ContentModal.jsx:287-292 | the close button hides the viewer and changes nothing else |
| ContentModal.GalleryViewer.KeyDown | frontend/src/pages/our-vision-mission-page/components/ContentModal.jsx:50-65 | keys do nothing while closed; when open, the left and right arrows move back and on, Escape closes, any other key changes nothing |
| ContentModal.StatsFrom | frontend/src/pages/our-vision-mission-page/components/ContentModal.jsx:186-197 | the fields from a position on give at most one entry each |
| ContentModal.StatOf | frontend/src/pages/our-vision-mission-page/components/ContentModal.jsx:189-197 | a field gives an entry exactly when the content's value for it is truthy, with its label, icon and value |
| ContentModal.Stats | frontend/src/pages/our-vision-mission-page/components/ContentModal.jsx:186-199 | at most nine entries, exactly those of the truthy fields, and none exactly when no field is truthy |
| ContentModal.StatsFromMembers | frontend/src/pages/our-vision-mission-page/components/ContentModal.jsx:186-197 | the entries from a position on are exactly those of the truthy fields from there on |
| ContentModal.StatsFromIndexed | frontend/src/pages/our-vision-mission-page/components/ContentModal.jsx:186-197 | the entries from a position on are the stats of strictly rising field positions, covering every truthy field from there on |
| ContentModal.StatsIndexed | frontend/src/pages/our-vision-mission-page/components/ContentModal.jsx:186-199 | the entries are the stats of the truthy fields in the fixed order: entry k comes from a field whose position rises with k, and every truthy field has one |
| ContentModal.StatsFromEmpty | frontend/src/pages/our-vision-mission-page/components/ContentModal.jsx:186-199 | there are no entries exactly when no field from the position on is truthy |
| ContentModal.ViewsFirst | frontend/src/pages/our-vision-mission-page/components/ContentModal.jsx:189 | a truthy view count is the first entry |
| ContentModal.LocationLast | frontend/src/pages/our-vision-mission-page/components/ContentModal.jsx:197 | a truthy location is the last entry |
| ContentModal.LastFieldLast | frontend/src/pages/our-vision-mission-page/components/ContentModal.jsx:186-197 | whenever the last field is truthy its entry ends the list |
| ContentModal.OnlyLast | frontend/src/pages/our-vision-mission-page/components/ContentModal.jsx:197 | from the last field on, a truthy last field is the only entry |
| ContentModal.KeepsLast | frontend/src/pages/our-vision-mission-page/components/ContentModal.jsx:186-197 | pushing an earlier entry does not change which entry is last |
| ContentModal.OnlyVideosCountViews | frontend/src/pages/our-vision-mission-page/components/ContentModal.jsx:78-91 | a view is counted only for open content with an id, and never for content that is not a video |
| ContentModal.CountsView | frontend/src/pages/our-vision-mission-page/components/ContentModal.jsx:78-79 | the view request fires exactly when the modal is open and the content has a truthy _id and the fileType 'video' |
| TimelinePage.FilterByCategory | frontend/src/pages/andolan-timeline-page/index.jsx:182-184 | a milestone is shown exactly when the category is 'all' or is its own |
| TimelinePage.AllKeepsEverything | frontend/src/pages/andolan-timeline-page/index.jsx:182-184 | the 'all' category shows every milestone in order |
| TimelinePage.FilterAppend | frontend/src/pages/andolan-timeline-page/index.jsx:182-184 | filtering a concatenation is concatenating the filtered parts, so order is kept |
| TimelinePage.FilterIdempotent | frontend/src/pages/andolan-timeline-page/index.jsx:182-184 | filtering twice by a category is filtering once |
| TimelinePage.SelectYear | frontend/src/pages/andolan-timeline-page/index.jsx:186-192 | clicking the selected year clears the selection; clicking any other selects it |
| TimelinePage.SelectTwiceClears | frontend/src/pages/andolan-timeline-page/index.jsx:186-192 | two clicks on a year that was not selected leave nothing selected |
| TimelinePage.FindYear | frontend/src/pages/andolan-timeline-page/index.jsx:208 | the first index holding the selected year, or -1 exactly when no milestone has it |
| TimelinePage.FindOwnYear | frontend/src/pages/andolan-timeline-page/index.jsx:208 | with distinct years, looking up a milestone's year finds that milestone |
| TimelinePage.KeyDown | frontend/src/pages/andolan-timeline-page/index.jsx:212-227 | keys other than the arrows, and a selection not on the timeline, change nothing |
| TimelinePage.KeyDownLandsOnMilestone | frontend/src/pages/andolan-timeline-page/index.jsx:214-220 | an arrow press that changes the selection selects the year of a milestone |
| TimelinePage.ArrowStep | frontend/src/pages/andolan-timeline-page/index.jsx:217-220 | from a milestone the left arrow selects the previous one and the right arrow the next, held at the ends |
| TimelinePage.RightPressesClamp | frontend/src/pages/andolan-timeline-page/index.jsx:219 | k right presses move k milestones on, stopping at the last |
| TimelinePage.LeftPressesClamp | frontend/src/pages/andolan-timeline-page/index.jsx:218 | k left presses move k milestones back, stopping at the first |
| TimelinePage.ArrowsInverse | frontend/src/pages/andolan-timeline-page/index.jsx:217-220 | away from both ends, a right press and a left press undo each other |
| TimelinePage.FindDecade | frontend/src/pages/andolan-timeline-page/index.jsx:196 | the decade found has the value asked for, and none is found exactly when no decade has it |
| TimelinePage.DecadeJump | frontend/src/pages/andolan-timeline-page/index.jsx:194-204 | the decade is always recorded; the year becomes the found decade's first year when that year is set, and is kept when the decade is missing, has no years or its first year is 0 |
| TimelinePage.Progress | frontend/src/pages/andolan-timeline-page/index.jsx:206-210 | the progress lies between 0 and 100 and is 0 without a selection |
| TimelinePage.TimelineYears | frontend/src/pages/andolan-timeline-page/index.jsx:18-165 | the page's milestones have distinct, non-zero years |
| TimelinePage.ProgressAt | frontend/src/pages/andolan-timeline-page/index.jsx:206-210 | selecting the i-th milestone shows (i + 1) out of the list's length as a percentage |
| TimelinePage.DecadeJumpShowsProgress | frontend/src/pages/andolan-timeline-page/index.jsx:194-210 | each decade button selects its first year and moves the progress off zero |
| TimelinePage.DecadeFound | frontend/src/pages/andolan-timeline-page/index.jsx:176-180 | each decade button finds its decade, whose first year is a milestone's year |
| TimelinePage.ProgressComplete | frontend/src/pages/andolan-timeline-page/index.jsx:206-210 | the progress reaches 100 exactly at the last milestone |
| MilestoneCard.NextImage | frontend/src/pages/andolan-timeline-page/components/MilestoneCard.jsx:25-29 | next stays among the images, wraps from the last to the first and otherwise moves one on |
| MilestoneCard.PrevImage | frontend/src/pages/andolan-timeline-page/components/MilestoneCard.jsx:31-35 | previous stays among the images, wraps from the first to the last and otherwise moves one back |
| MilestoneCard.PrevNextInverse | frontend/src/pages/andolan-timeline-page/components/MilestoneCard.jsx:25-35 | on every image, previous undoes next and next undoes previous |
| MilestoneCard.SameWalkAsContentModal | frontend/src/pages/andolan-timeline-page/components/MilestoneCard.jsx:25-35 | on every image index the card's next and previous agree with the content modal's viewer |
| MilestoneCard.CardViewer.constructor | frontend/src/pages/andolan-timeline-page/components/MilestoneCard.jsx:17-18 | the viewer starts closed on the first image |
| MilestoneCard.CardViewer.ImageClick | frontend/src/pages/andolan-timeline-page/components/MilestoneCard.jsx:20-23 | a click opens the viewer on that image; the index is valid exactly when the image exists |
| MilestoneCard.CardViewer.NextClick | frontend/src/pages/andolan-timeline-page/components/MilestoneCard.jsx:238 | the next button applies next, leaves the viewer open or closed, and keeps a valid index valid |
| MilestoneCard.CardViewer.PrevClick | frontend/src/pages/andolan-timeline-page/components/MilestoneCard.jsx:232 | the previous button applies previous, leaves the viewer open or closed, and keeps a valid index valid |
| MilestoneCard.CardViewer.BackdropClick | frontend/src/pages/andolan-timeline-page/components/MilestoneCard.jsx:208-213 | a click on the backdrop or the close button closes the viewer and keeps the index |
| MilestoneCard.CategoryIcon | frontend/src/pages/andolan-timeline-page/components/MilestoneCard.jsx:37-46 | an unknown category gets the 'Calendar' icon and a known one never does |
| MilestoneCard.CategoryColor | frontend/src/pages/andolan-timeline-page/components/MilestoneCard.jsx:48-57 | the colour is 'text-primary' exactly for an unknown category or 'programs' |
| MilestoneCard.IconsDistinct | frontend/src/pages/andolan-timeline-page/components/MilestoneCard.jsx:37-46 | two different known categories get different icons |
| MilestoneCard.MoreCount | frontend/src/pages/andolan-timeline-page/components/MilestoneCard.jsx:165-171 | the '+N more' tile appears exactly with more than four images and counts those past the fourth |
| MilestoneCard.MobileVisible | frontend/src/pages/andolan-timeline-page/components/MilestoneCard.jsx:146 | at most four images, and no more than there are, show on small screens |
| MilestoneCard.MobileAccountsForAll | frontend/src/pages/andolan-timeline-page/components/MilestoneCard.jsx:146-171 | on small screens the visible images plus the tile's count are all the images, exactly the images from the fifth on are hidden, and the tile opens a hidden image |
| MilestoneCard.OpenersInRange | frontend/src/pages/andolan-timeline-page/components/MilestoneCard.jsx:140-185 | every button that opens the viewer (an image, the '+N more' tile, 'View All') opens it on an existing image |
| MilestoneCard.NavigationMovesIff | frontend/src/pages/andolan-timeline-page/components/MilestoneCard.jsx:229-244 | the navigation buttons are shown exactly when next changes the image |
| MilestonesSection.PairAt | frontend/src/pages/homepage/components/MilestonesSection.jsx:74-84 | row k holds milestone 2k on the left and 2k + 1 on the right, with no right one exactly when 2k is the last |
| MilestonesSection.Pairs | frontend/src/pages/homepage/components/MilestonesSection.jsx:74-84 | there are as many rows as half the milestones, rounded up |
| MilestonesSection.PairsIndex | frontend/src/pages/homepage/components/MilestonesSection.jsx:74-84 | every row of the pairing is the row at its position |
| MilestonesSection.CreateMilestonePairs | frontend/src/pages/homepage/components/MilestonesSection.jsx:74-84 | the loop stepping two at a time builds exactly the pairing |
| MilestonesSection.UnpairPairs | frontend/src/pages/homepage/components/MilestonesSection.jsx:74-84 | reading the rows left then right gives back every milestone in order |
| MilestonesSection.OnlyLastLacksRight | frontend/src/pages/homepage/components/MilestonesSection.jsx:74-84 | a row lacks a right milestone exactly when it is the last and the count is odd |
| MilestonesSection.Badge | frontend/src/pages/homepage/components/MilestonesSection.jsx:171 | the badge is the last two characters of the year, or the whole year when shorter |
| FormRules.NameError | frontend/src/pages/youth-leadership-program-modal/components/RegistrationForm.jsx:18-22 | no error exactly when the trimmed name has at least two characters; 'required' exactly when it is blank |
| FormRules.RequiredError | frontend/src/pages/youth-leadership-program-modal/components/RegistrationForm.jsx:24-26 | the message exactly when the trimmed value is empty, nothing otherwise |
| FormRules.PhoneError | frontend/src/pages/youth-leadership-program-modal/components/RegistrationForm.jsx:28-32 | no error exactly when the number is ten digits starting 6 to 9; 'required' exactly when it is blank |
| FormRules.IsMobile | frontend/src/pages/youth-leadership-program-modal/components/RegistrationForm.jsx:30 | a number that passes the mobile pattern is left unchanged by the phone input's digit filter |
| FormRules.SanitisePhone | frontend/src/pages/youth-leadership-program-modal/components/RegistrationForm.jsx:130 | the kept text is the first (at most ten) digits of the input, in order |
| FormRules.SanitiseIdempotent | frontend/src/pages/youth-leadership-program-modal/components/RegistrationForm.jsx:130 | sanitising a sanitised number changes nothing |
| FormRules.SanitisedPhoneValid | frontend/src/pages/youth-leadership-program-modal/components/RegistrationForm.jsx:28-32 | a sanitised number passes the mobile check exactly when the input held at least ten digits, the first 6 to 9 |
| FormRules.SanitisedBlankIffEmpty | frontend/src/pages/youth-leadership-program-modal/components/RegistrationForm.jsx:28 | a sanitised number is blank only when it is empty |
| FormRules.DigitRun | frontend/src/pages/youth-leadership-program-modal/components/RegistrationForm.jsx:36 | the run is the longest prefix of digits of the radix |
| FormRules.Digits | frontend/src/pages/youth-leadership-program-modal/components/RegistrationForm.jsx:36 | the digits parseInt reads are all digits of the radix its prefix selects |
| FormRules.ParseInt | frontend/src/pages/youth-leadership-program-modal/components/RegistrationForm.jsx:36 | parseInt gives NaN exactly when no digit follows the white space, sign and prefix, and otherwise the signed value of the digit run in radix 16 after '0x' and radix 10 otherwise |
| FormRules.ParseIntDecimal | frontend/src/pages/youth-leadership-program-modal/components/RegistrationForm.jsx:36 | parseInt reads back the value of every decimal numeral |
| FormRules.ParseIntNumeralPrefix | frontend/src/pages/youth-leadership-program-modal/components/RegistrationForm.jsx:36 | white space, an optional sign, a numeral and text that does not continue it read as the signed numeral (' 25abc' gives 25, '-5' gives -5) |
| FormRules.ParseIntSigned | frontend/src/pages/youth-leadership-program-modal/components/RegistrationForm.jsx:36 | after an optional sign a numeral followed by a non-digit is read unsigned, in radix 10, as its value, negative exactly after '-' |
| FormRules.ParseIntAfterSpace | frontend/src/pages/youth-leadership-program-modal/components/RegistrationForm.jsx:36 | leading white space does not change what parseInt reads |
| FormRules.ParseIntHex | frontend/src/pages/youth-leadership-program-modal/components/RegistrationForm.jsx:36 | '0x1A' is read in radix 16 as 26 |
| FormRules.AgeError | frontend/src/pages/youth-leadership-program-modal/components/RegistrationForm.jsx:34-38 | 'required' exactly for a blank age, 'out of range' exactly for a parsed number below 18 or above 35, and nothing otherwise (NaN included) |
| FormRules.AgeOfNumeral | frontend/src/pages/youth-leadership-program-modal/components/RegistrationForm.jsx:34-38 | a numeral passes the age check exactly when its value is from 18 to 35 |
| FormRules.AgeWithoutDigitsPasses | frontend/src/pages/youth-leadership-program-modal/components/RegistrationForm.jsx:36 | a non-blank age without digits passes, since both comparisons with NaN are false |
| FormRules.Set | frontend/src/pages/youth-leadership-program-modal/components/RegistrationForm.jsx:57 | writing a key sets that key and leaves every other key as it was |
| FormRules.NoKeysIffEmpty | frontend/src/pages/youth-leadership-program-modal/components/RegistrationForm.jsx:49 | the error object has no keys exactly when it is the empty object |
| FormRules.ClearError | frontend/src/pages/youth-leadership-program-modal/components/RegistrationForm.jsx:56-58 | a shown error is replaced by '' and a field without one is left alone; the field then shows no error and other fields are unchanged |
| FormRules.ClearErrorIdempotent | frontend/src/pages/youth-leadership-program-modal/components/RegistrationForm.jsx:56-58 | clearing a field's error twice is clearing it once |
| FormRules.Initial | frontend/src/pages/youth-leadership-program-modal/components/RegistrationForm.jsx:5-13 | both registration forms start each of their text fields from the parent's value under its key, or '' when absent; fields a form lacks are absent; the terms flag is the parent's |
| FormRules.SetField | frontend/src/pages/youth-leadership-program-modal/components/RegistrationForm.jsx:52-53 | in both forms the changed field takes the typed text (the checkbox its flag) and every other field keeps its value |
| FormRules.HandleInputChange | frontend/src/pages/youth-leadership-program-modal/components/RegistrationForm.jsx:52-59 | in both forms the field takes the value, its shown error is cleared, and other fields' values and errors are unchanged |
| FormRules.PhoneInput | frontend/src/pages/youth-leadership-program-modal/components/RegistrationForm.jsx:130 | in both forms the stored number is the sanitised input, at most ten digits, with its error cleared and every other field unchanged |
| YouthRegistration.ValidateForm | frontend/src/pages/youth-leadership-program-modal/components/RegistrationForm.jsx:15-50 | each field's error is its rule's result, experience is never checked, and the form is valid exactly when no key is set and every check passes |
| YouthRegistration.HandleSubmit | frontend/src/pages/youth-leadership-program-modal/components/RegistrationForm.jsx:61-69 | the data is handed on unchanged exactly when every check passes |
| YouthRegistration.PhoneInputThenValidate | frontend/src/pages/youth-leadership-program-modal/components/RegistrationForm.jsx:15-50 | a form whose number came through the input is valid exactly when the other checks pass and the typed text held ten digits, the first 6 to 9 |
| YouthRegistration.ExperienceIgnored | frontend/src/pages/youth-leadership-program-modal/components/RegistrationForm.jsx:15-50 | changing the experience never changes whether the form is valid |
| MemberRegistration.ValidateForm | frontend/src/pages/member-registration-modal/components/RegistrationForm.jsx:13-42 | each field's error is its rule's result and the form is valid exactly when no key is set and every check passes |
| MemberRegistration.HandleSubmit | frontend/src/pages/member-registration-modal/components/RegistrationForm.jsx:53-61 | the data is handed on unchanged exactly when every check passes |
| MemberRegistration.PhoneInputThenValidate | frontend/src/pages/member-registration-modal/components/RegistrationForm.jsx:13-42 | a form whose number came through the input is valid exactly when the other checks pass and the typed text held ten digits, the first 6 to 9 |

## Left out

- Storage I/O. The storage provider's upload and destroy and the multer storage are parameters, not code. Only their success or failure and the values they return are modelled.
- Video duration. The media create and update look up a video's duration (`cloudinary.api.resource`), which returns float seconds. The duration is not modelled.
- Database operations. Mongoose's `find`, `sort`, `findById*`, `deleteOne` and `save` become operations on an in-memory map. Casting assigned values to schema types is modelled only for the media gallery's `[String]` path (MediaSchema.SaveErrors). Elsewhere the stored values are the request's strings or JSON values.
- MediaSchema.SaveErrors: the cast error's text is shortened to 'gallery: Cast to [string] failed'. Mongoose's message also quotes the value and the element path.
- TimelineSchema.ApplyUpdate: does not model the cast of gallery entries to `{filePath, publicId, fileType}` subdocuments. An entry that is not an object, or whose three fields are objects or arrays, is stored as given, where Mongoose would refuse the save.
- TimelineSchema.NewTimeline: the same subdocument cast is not modelled on create.
- Malformed ids. Ids are natural numbers, so a path id that is not a valid ObjectId cannot be written, and the CastError `findById` throws for one is not modelled.
- InformationController.InformationStore.UpdateInformationItem: a malformed id throws a CastError, which the catch block answers 400. This path is not modelled.
- InformationController.InformationStore.DeleteInformationItem: a malformed id throws a CastError, which the catch block answers 500 'Server Error'. This path is not modelled.
- MediaController.MediaStore.GetMediaItemById: a malformed id throws a CastError past the handler, which answers 500. This path is not modelled.
- `populate('uploadedBy')`. The referenced user collection is not part of this model.
- Logging. Every `console` call is left out, because it changes no state.
- Authentication, route wiring, the upload middleware and the front-end service wrappers. They are thin wrappers around libraries and HTTP.
- Clock and dates. The current time, `Date` parsing and date formatting are parameters. The 'date' sort orders by a given date function.
- `JSON.parse`. It is a parameter returning a list of JSON values. A parse that succeeds but yields something other than an array is not modelled.
- Text.Lower: maps ASCII letters only. Unicode case mapping is left out.
- FormRules.NameError: counts Unicode code points where JavaScript's `length` counts UTF-16 code units. A trimmed name of one character outside the Basic Multilingual Plane, such as '𝒜', has length 2 in the browser and passes there, while the model rejects it. Strings are sequences of code points throughout the model.
- TimelinePage.Progress: computed as an exact real. Floating-point rounding is left out.
- TimelinePage.Progress: the page's fixed milestone list is the only list considered.
- Timers and scrolling. The `setTimeout` delays (year selection, refresh after delete) and `scrollIntoView` are left out. The state after the delay is modelled.
- Loading flags. React's `isLoading` and `loading` flags are not modelled.
- Touch events. The content modal's touch handlers and the stale `touchEndX` they read are left out. Only the swipe rule applied to a start and end position is modelled (ContentModal.Swipe).
- Content modal rendering. `renderVideo`, its poster fallback chain, the cover image and the details block are presentational. So is the early `return null` when there is no content.
- Milestone card props. The card is handed a single `milestone` prop but reads individual fields, so it receives nothing. The card's index logic is modelled on its own, without this wiring.
- Map key lookups. The icon and colour maps, and the `content[language]` lookup, are plain JavaScript objects. Prototype keys such as 'constructor' are not modelled.
- InformationCenter.Filter: every item is taken to carry a string title and description and an integer engagementMetric. In the page, a non-empty query calls `item.title.toLowerCase()` and, when the title does not match, `item.description.toLowerCase()` (index.jsx:79-80). Either call throws a TypeError for an item that lacks the field. The server's documents carry `content` rather than `description` (server/models/Information.js:9-12), so such a query throws whenever the title does not match. Sorting by engagement subtracts `b.engagementMetric - a.engagementMetric` (index.jsx:93), which is NaN when an item has no metric and leaves the order to the browser. These paths are not modelled.
- InformationCenter.SortContent: same assumption as InformationCenter.Filter, an integer engagementMetric on every item; the NaN comparison of a missing metric is not modelled.
- Information service wrappers. The admin dashboard calls them with an extra group title argument that they ignore. The service is not part of this model, and neither is the meaning of `groupTitle` on the server.
- `handleFormSubmit`'s branch for a `FormData` instance. It is not modelled, because DynamicForm always passes a plain object.
- Form presentation. Labels, placeholders, the upload middleware's `maxCount` and the stale `multipleFiles` read in the dynamic form are left out.
- Listing.SortDesc: states a sorted permutation but not which of two equal keys comes first. `Array.prototype.sort`'s stability is not part of the contract.
- The registration forms' error object is a record with one optional message per known field. Arbitrary keys cannot appear, because `handleInputChange` is only called with the forms' own field names.
- Presentational components, payment and the other page shells. They are rendering only.
