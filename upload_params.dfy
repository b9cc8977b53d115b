/** The upload naming scheme of server/config/cloudinaryConfig.js: the cloud
    name default, the resource type chosen from the request URL, the
    sanitised category, the `YYYY_MM` timestamp, the `public_id`, the folder,
    and the fallback used when computing them throws. The clock is passed in
    as the year, the zero-based month and the millisecond count. */
module UploadParams {
  import opened Wrappers
  import opened Http
  import Text

  const DemoCloud: string := "demo"
  const TestFolder: string := "test_uploads"
  const FolderRoot: string := "rashtriya_kishan_manch/"
  const AutoResource: string := "auto"

  /** The parameters handed to the storage for one uploaded file. */
  datatype Params = Params(folder: string, publicId: string, resourceType: string)

  /** The configured cloud name, 'demo' when the variable is unset or empty. */
  function CloudName(env: Option<string>): (r: string)
    ensures Given(env) ==> r == env.value
    ensures !Given(env) ==> r == DemoCloud
    ensures r != []
  {
    if Given(env) then env.value else DemoCloud
  }

  /** Uploads go to the test folder exactly when the cloud name is 'demo'. */
  predicate UseTestFolder(cloudName: string) {
    cloudName == DemoCloud
  }

  /** The test folder is used exactly when no cloud name is configured or the
      configured one is 'demo' itself. */
  lemma TestFolderIffUnconfigured(env: Option<string>)
    ensures UseTestFolder(CloudName(env)) <==> !Given(env) || env.value == DemoCloud
  {
  }

  const ResourceTypes: seq<string> := ["media", "programs", "projects", "team", "members"]

  /** The lowercased request URL; a missing or empty URL reads as '/media'. */
  function UrlPath(originalUrl: Option<string>): (r: string)
    ensures !Given(originalUrl) ==> r == "/media"
    ensures Given(originalUrl) ==> r == Text.Lower(originalUrl.value)
  {
    if Given(originalUrl) then Text.Lower(originalUrl.value) else "/media"
  }

  /** The first of media, programs, projects, team, members whose '/'-prefixed
      name occurs in the URL path, else 'misc'. */
  function ResourceType(originalUrl: Option<string>): (r: string)
    ensures r in ResourceTypes || r == "misc"
    ensures r == "misc" <==> forall k :: 0 <= k < |ResourceTypes| ==> !Text.Contains(UrlPath(originalUrl), "/" + ResourceTypes[k])
    ensures forall k :: 0 <= k < |ResourceTypes| && r == ResourceTypes[k] ==>
              && Text.Contains(UrlPath(originalUrl), "/" + ResourceTypes[k])
              && forall j :: 0 <= j < k ==> !Text.Contains(UrlPath(originalUrl), "/" + ResourceTypes[j])
  {
    var path := UrlPath(originalUrl);
    assert "/" + ResourceTypes[0] == "/media" && "/" + ResourceTypes[1] == "/programs";
    assert "/" + ResourceTypes[2] == "/projects" && "/" + ResourceTypes[3] == "/team";
    assert "/" + ResourceTypes[4] == "/members";
    if Text.Contains(path, "/media") then "media"
    else if Text.Contains(path, "/programs") then "programs"
    else if Text.Contains(path, "/projects") then "projects"
    else if Text.Contains(path, "/team") then "team"
    else if Text.Contains(path, "/members") then "members"
    else "misc"
  }

  /** A request without a URL is filed as media. */
  lemma MissingUrlIsMedia()
    ensures ResourceType(None) == "media"
  {
    assert "/media"[..|"/media"|] == "/media";
  }

  /** `.replace(/\s+/g, '-')`: each run of whitespace becomes one '-'. */
  function CollapseSpaces(s: string): (r: string)
    ensures |r| <= |s|
    ensures |s| == 1 ==> r == if Text.IsSpace(s[0]) then "-" else s
    decreases |s|
  {
    if s == [] then []
    else if Text.IsSpace(s[0]) then "-" + CollapseSpaces(Text.TrimStart(s[1..]))
    else [s[0]] + CollapseSpaces(s[1..])
  }

  /** No whitespace survives the collapse. */
  lemma {:induction false} CollapseSpacesNoSpace(s: string)
    ensures forall i :: 0 <= i < |CollapseSpaces(s)| ==> !Text.IsSpace(CollapseSpaces(s)[i])
    decreases |s|
  {
    if s != [] {
      if Text.IsSpace(s[0]) {
        CollapseSpacesNoSpace(Text.TrimStart(s[1..]));
      } else {
        CollapseSpacesNoSpace(s[1..]);
      }
    }
  }

  /** A string without whitespace is left unchanged. */
  lemma {:induction false} CollapseSpacesFixes(s: string)
    requires forall i :: 0 <= i < |s| ==> !Text.IsSpace(s[i])
    ensures CollapseSpaces(s) == s
  {
    if s != [] {
      assert forall i :: 0 <= i < |s[1..]| ==> s[1..][i] == s[i + 1];
      CollapseSpacesFixes(s[1..]);
    }
  }

  predicate Allowed(c: char) {
    'a' <= c <= 'z' || '0' <= c <= '9' || c == '-'
  }

  /** `.replace(/[^a-z0-9-]/g, '')`: the allowed characters, in order. */
  function KeepAllowed(s: string): (r: string)
    ensures forall i :: 0 <= i < |r| ==> Allowed(r[i])
    ensures (forall i :: 0 <= i < |s| ==> Allowed(s[i])) ==> r == s
    ensures |r| <= |s|
    ensures |s| == 1 ==> r == if Allowed(s[0]) then s else []
  {
    if s == [] then []
    else if Allowed(s[0]) then
      assert forall i :: 0 <= i < |s[1..]| ==> s[1..][i] == s[i + 1];
      [s[0]] + KeepAllowed(s[1..])
    else KeepAllowed(s[1..])
  }

  /** Collapsing the whitespace of a concatenation collapses each part on its
      own when the first part does not end in whitespace. */
  lemma {:induction false} CollapseAppend(a: string, b: string)
    requires a == [] || !Text.IsSpace(a[|a| - 1])
    ensures CollapseSpaces(a + b) == CollapseSpaces(a) + CollapseSpaces(b)
    decreases |a|
  {
    if a == [] {
      assert a + b == b;
    } else if Text.IsSpace(a[0]) {
      var t := LeadingRunEnds(a, b);
      CollapseAppend(t, b);
      CollapseSpaceStep(a, b);
    } else {
      assert a[1..] == [] || a[1..][|a| - 2] == a[|a| - 1];
      CollapseAppend(a[1..], b);
      CollapseKeepStep(a, b);
    }
  }

  /** A leading run of whitespace in `a` ends inside `a` when `a` ends in
      something else; what follows it is shorter and ends the same way. */
  lemma LeadingRunEnds(a: string, b: string) returns (t: string)
    requires a != [] && Text.IsSpace(a[0]) && !Text.IsSpace(a[|a| - 1])
    ensures t == Text.TrimStart(a[1..]) && |t| < |a|
    ensures t != [] && !Text.IsSpace(t[|t| - 1])
    ensures Text.TrimStart((a + b)[1..]) == t + b
  {
    assert (a + b)[1..] == a[1..] + b;
    assert a[1..][|a| - 2] == a[|a| - 1];
    Text.TrimStartAppend(a[1..], b);
    t := Text.TrimStart(a[1..]);
  }

  /** The step of `CollapseAppend` past a leading whitespace run. */
  lemma CollapseSpaceStep(a: string, b: string)
    requires a != [] && Text.IsSpace(a[0])
    requires Text.TrimStart((a + b)[1..]) == Text.TrimStart(a[1..]) + b
    requires CollapseSpaces(Text.TrimStart(a[1..]) + b) == CollapseSpaces(Text.TrimStart(a[1..])) + CollapseSpaces(b)
    ensures CollapseSpaces(a + b) == CollapseSpaces(a) + CollapseSpaces(b)
  {
    var t := Text.TrimStart(a[1..]);
    assert (a + b)[0] == a[0];
    assert CollapseSpaces(a + b) == "-" + (CollapseSpaces(t) + CollapseSpaces(b));
    assert CollapseSpaces(a) == "-" + CollapseSpaces(t);
    Text.ConcatAssoc("-", CollapseSpaces(t), CollapseSpaces(b));
  }

  /** The step of `CollapseAppend` past a character that is not whitespace. */
  lemma CollapseKeepStep(a: string, b: string)
    requires a != [] && !Text.IsSpace(a[0])
    requires CollapseSpaces(a[1..] + b) == CollapseSpaces(a[1..]) + CollapseSpaces(b)
    ensures CollapseSpaces(a + b) == CollapseSpaces(a) + CollapseSpaces(b)
  {
    assert (a + b)[0] == a[0];
    assert (a + b)[1..] == a[1..] + b;
  }

  /** A whitespace run opening a string collapses to one '-' before the
      collapsed rest. */
  lemma CollapseLeadingRun(w: string, b: string)
    requires w != [] && Text.AllSpace(w)
    requires b == [] || !Text.IsSpace(b[0])
    ensures CollapseSpaces(w + b) == "-" + CollapseSpaces(b)
  {
    assert (w + b)[0] == w[0];
    assert (w + b)[1..] == w[1..] + b;
    Text.TrimStartSpaces(w[1..], b);
  }

  /** A maximal run of whitespace becomes exactly one '-' between the
      collapsed text before it and the collapsed text after it. */
  lemma CollapseRun(a: string, w: string, b: string)
    requires a == [] || !Text.IsSpace(a[|a| - 1])
    requires w != [] && Text.AllSpace(w)
    requires b == [] || !Text.IsSpace(b[0])
    ensures CollapseSpaces(a + w + b) == CollapseSpaces(a) + "-" + CollapseSpaces(b)
  {
    Text.ConcatAssoc(a, w, b);
    CollapseAppend(a, w + b);
    CollapseLeadingRun(w, b);
    Text.ConcatAssoc(CollapseSpaces(a), "-", CollapseSpaces(b));
  }

  /** Dropping the characters outside [a-z0-9-] from a concatenation drops
      them from each part; with the one-character case this fixes
      `KeepAllowed` on every input. */
  lemma {:induction false} KeepAllowedAppend(a: string, b: string)
    ensures KeepAllowed(a + b) == KeepAllowed(a) + KeepAllowed(b)
  {
    if a == [] {
      assert a + b == b;
    } else {
      assert (a + b)[1..] == a[1..] + b;
      KeepAllowedAppend(a[1..], b);
    }
  }

  /** Lowercase, collapse whitespace runs to '-', drop everything outside
      [a-z0-9-], in that order. */
  function Sanitise(source: string): (r: string)
    ensures forall i :: 0 <= i < |r| ==> Allowed(r[i])
    ensures r == KeepAllowed(CollapseSpaces(Text.Lower(source)))
  {
    KeepAllowed(CollapseSpaces(Text.Lower(source)))
  }

  /** Two words that lower-case to allowed characters, separated by any run
      of whitespace, sanitise to the lower-cased words joined by one '-'. */
  lemma SanitiseWords(a: string, w: string, b: string)
    requires a != [] && b != [] && w != [] && Text.AllSpace(w)
    requires forall i :: 0 <= i < |a| ==> Allowed(Text.LowerChar(a[i]))
    requires forall i :: 0 <= i < |b| ==> Allowed(Text.LowerChar(b[i]))
    ensures Sanitise(a + w + b) == Text.Lower(a) + "-" + Text.Lower(b)
  {
    var la, lb := Text.Lower(a), Text.Lower(b);
    LowerAroundRun(a, w, b);
    LowerAllowed(a);
    LowerAllowed(b);
    CollapseRun(la, w, lb);
    CollapseSpacesFixes(la);
    CollapseSpacesFixes(lb);
    AllowedJoin(la, lb);
  }

  /** Lower-casing leaves a run of whitespace between two parts alone. */
  lemma LowerAroundRun(a: string, w: string, b: string)
    requires Text.AllSpace(w)
    ensures Text.Lower(a + w + b) == Text.Lower(a) + w + Text.Lower(b)
  {
    Text.LowerAppend(a + w, b);
    Text.LowerAppend(a, w);
    assert Text.Lower(w) == w;
  }

  /** Characters that lower-case to allowed ones give an allowed string
      free of whitespace. */
  lemma LowerAllowed(a: string)
    requires forall i :: 0 <= i < |a| ==> Allowed(Text.LowerChar(a[i]))
    ensures forall i :: 0 <= i < |Text.Lower(a)| ==> Allowed(Text.Lower(a)[i]) && !Text.IsSpace(Text.Lower(a)[i])
  {
  }

  /** Two allowed strings joined by '-' are allowed. */
  lemma AllowedJoin(la: string, lb: string)
    requires forall i :: 0 <= i < |la| ==> Allowed(la[i])
    requires forall i :: 0 <= i < |lb| ==> Allowed(lb[i])
    ensures forall i :: 0 <= i < |la + "-" + lb| ==> Allowed((la + "-" + lb)[i])
  {
    var t := la + "-" + lb;
    forall i | 0 <= i < |t| ensures Allowed(t[i]) {
      if i < |la| {
        assert t[i] == la[i];
      } else if i > |la| {
        assert t[i] == lb[i - |la| - 1];
      }
    }
  }

  /** `req.body.category || req.body.type || 'general'`. */
  function CategorySource(b: map<string, string>): (r: string)
    ensures "category" in b && b["category"] != [] ==> r == b["category"]
    ensures !("category" in b && b["category"] != []) && "type" in b && b["type"] != [] ==> r == b["type"]
    ensures !("category" in b && b["category"] != []) && !("type" in b && b["type"] != []) ==> r == "general"
    ensures r != []
  {
    if "category" in b && b["category"] != [] then b["category"]
    else if "type" in b && b["type"] != [] then b["type"]
    else "general"
  }

  /** The sanitised category of a request: the body's `category`, else its
      `type`, else 'general'; 'general' when there is no body at all. */
  function Category(body: Option<map<string, string>>): (r: string)
    ensures forall i :: 0 <= i < |r| ==> Allowed(r[i])
    ensures body.None? ==> r == "general"
    ensures body.Some? ==> r == Sanitise(CategorySource(body.value))
  {
    if body.None? then "general"
    else Sanitise(CategorySource(body.value))
  }

  /** A body naming the category 'Policy Changes' files under
      'policy-changes', whatever its type. */
  lemma CategoryOfTwoWords(b: map<string, string>)
    requires "category" in b && b["category"] == "Policy Changes"
    ensures Category(Some(b)) == "policy-changes"
  {
    assert b["category"] == "Policy" + " " + "Changes";
    SanitiseWords("Policy", " ", "Changes");
    assert Text.Lower("Policy") == "policy";
    assert Text.Lower("Changes") == "changes";
  }

  /** A string already made of allowed characters is left unchanged. */
  lemma SanitiseFixesAllowed(s: string)
    requires forall i :: 0 <= i < |s| ==> Allowed(s[i])
    ensures Sanitise(s) == s
  {
    assert Text.Lower(s) == s;
    CollapseSpacesFixes(s);
  }

  /** Sanitising twice is sanitising once. */
  lemma SanitiseIdempotent(s: string)
    ensures Sanitise(Sanitise(s)) == Sanitise(s)
  {
    SanitiseFixesAllowed(Sanitise(s));
  }

  /** The 'general' fallback is applied before sanitising, so a category of
      punctuation alone sanitises to the empty string. */
  lemma PunctuationCategoryIsEmpty()
    ensures Category(Some(map["category" := "!!"])) == ""
  {
    var s := "!!";
    assert Text.Lower(s) == s;
    assert CollapseSpaces(s) == s;
    assert KeepAllowed(s[1..]) == [];
  }

  /** `String(month).padStart(2, '0')` for a month number 1..12. */
  function PadTwo(month: nat): (r: string)
    requires 1 <= month <= 12
    ensures |r| == 2 && Text.IsDigit(r[0]) && Text.IsDigit(r[1])
  {
    if month < 10 then "0" + Text.DecimalString(month)
    else
      assert Text.DecimalString(month) == Text.DecimalString(1) + [Text.DigitChar(month % 10)];
      Text.DecimalString(month)
  }

  /** The padded month reads back as the month. */
  lemma PadTwoReadsBack(month: nat)
    requires 1 <= month <= 12
    ensures Text.DecimalValue(PadTwo(month)) == month
  {
    Text.DecimalRoundTrip(month);
    var r := PadTwo(month);
    if month < 10 {
      assert r[..1] == "0";
    } else {
      assert Text.DecimalString(month) == Text.DecimalString(1) + [Text.DigitChar(month % 10)];
    }
  }

  /** `YYYY_MM` from the year and the zero-based month. */
  function Timestamp(year: nat, month0: nat): (r: string)
    requires month0 < 12
    ensures r == Text.DecimalString(year) + "_" + PadTwo(month0 + 1)
  {
    Text.DecimalString(year) + "_" + PadTwo(month0 + 1)
  }

  /** `resourceType_category_timestamp_now`. */
  function PublicId(resourceType: string, category: string, year: nat, month0: nat, now: nat): (r: string)
    requires month0 < 12
  {
    resourceType + "_" + (category + "_" + (Timestamp(year, month0) + "_" + Text.DecimalString(now)))
  }

  /** The folder: 'test_uploads' under the demo cloud, else one folder per
      resource type. */
  function Folder(cloudName: string, resourceType: string): (r: string)
    ensures UseTestFolder(cloudName) ==> r == TestFolder
    ensures !UseTestFolder(cloudName) ==> r == FolderRoot + resourceType
  {
    if UseTestFolder(cloudName) then TestFolder else FolderRoot + resourceType
  }

  /** The parameters for one upload. */
  function UploadParamsFor(cloudName: string, originalUrl: Option<string>, body: Option<map<string, string>>,
                           year: nat, month0: nat, now: nat): (r: Params)
    requires month0 < 12
    ensures r.resourceType == AutoResource
    ensures r.folder == Folder(cloudName, ResourceType(originalUrl))
    ensures r.publicId == PublicId(ResourceType(originalUrl), Category(body), year, month0, now)
  {
    var rt := ResourceType(originalUrl);
    Params(Folder(cloudName, rt), PublicId(rt, Category(body), year, month0, now), AutoResource)
  }

  /** The parameters used when computing the regular ones throws. */
  function Fallback(cloudName: string, now: nat): (r: Params)
    ensures r.resourceType == AutoResource
    ensures r.folder == if UseTestFolder(cloudName) then TestFolder else FolderRoot + "uploads"
    ensures r.publicId == "upload_" + Text.DecimalString(now)
  {
    Params(if UseTestFolder(cloudName) then TestFolder else FolderRoot + "uploads",
           "upload_" + Text.DecimalString(now), AutoResource)
  }

  /** Outside the demo cloud, a fallback upload never lands in the folder of
      a regular one, since 'uploads' is not a resource type. */
  lemma FallbackFolderDistinct(cloudName: string, originalUrl: Option<string>, body: Option<map<string, string>>,
                               year: nat, month0: nat, now: nat)
    requires month0 < 12 && !UseTestFolder(cloudName)
    ensures Fallback(cloudName, now).folder != UploadParamsFor(cloudName, originalUrl, body, year, month0, now).folder
  {
    var rt := ResourceType(originalUrl);
    assert (FolderRoot + "uploads")[|FolderRoot|..] == "uploads";
    assert (FolderRoot + rt)[|FolderRoot|..] == rt;
  }

  /** Five parts joined with '_', written as the public id nests them. */
  lemma JoinFive(a: string, b: string, c: string, d: string, e: string)
    ensures Text.Join([a, b, c, d, e], '_') == a + "_" + (b + "_" + ((c + "_" + d) + "_" + e))
  {
    assert [d, e][1..] == [e];
    assert Text.Join([d, e], '_') == d + "_" + e;
    assert [c, d, e][1..] == [d, e];
    assert Text.Join([c, d, e], '_') == c + "_" + (d + "_" + e);
    assert [b, c, d, e][1..] == [c, d, e];
    assert Text.Join([b, c, d, e], '_') == b + "_" + (c + "_" + (d + "_" + e));
    assert [a, b, c, d, e][1..] == [b, c, d, e];
    assert (c + "_" + d) + "_" + e == c + "_" + (d + "_" + e);
  }

  /** The five '_'-free parts of a public id split back out of it. */
  lemma SplitFive(a: string, b: string, c: string, d: string, e: string)
    requires '_' !in a && '_' !in b && '_' !in c && '_' !in d && '_' !in e
    ensures Text.Split(a + "_" + (b + "_" + ((c + "_" + d) + "_" + e)), '_') == [a, b, c, d, e]
  {
    JoinFive(a, b, c, d, e);
    Text.SplitJoin([a, b, c, d, e], '_');
  }

  /** A `public_id` splits at '_' back into the resource type, the
      category, the year, the padded month and the time it was built from,
      whenever the resource type and category hold no '_' (the numbers then
      read back by `Text.DecimalRoundTrip` and `PadTwoReadsBack`). */
  lemma PublicIdSplits(rt: string, cat: string, year: nat, month0: nat, now: nat)
    requires month0 < 12 && '_' !in rt && '_' !in cat
    ensures Text.Split(PublicId(rt, cat, year, month0, now), '_')
            == [rt, cat, Text.DecimalString(year), PadTwo(month0 + 1), Text.DecimalString(now)]
  {
    var y, m, t := Text.DecimalString(year), PadTwo(month0 + 1), Text.DecimalString(now);
    assert '_' !in y && '_' !in m && '_' !in t by { assert !Text.IsDigit('_'); }
    SplitFive(rt, cat, y, m, t);
  }

  /** Every public id the configuration generates splits that way: neither
      a resource type nor a sanitised category contains '_'. */
  lemma PublicIdDecodes(cloudName: string, originalUrl: Option<string>, body: Option<map<string, string>>,
                        year: nat, month0: nat, now: nat)
    requires month0 < 12
    ensures Text.Split(UploadParamsFor(cloudName, originalUrl, body, year, month0, now).publicId, '_')
            == [ResourceType(originalUrl), Category(body), Text.DecimalString(year), PadTwo(month0 + 1), Text.DecimalString(now)]
  {
    var rt, cat := ResourceType(originalUrl), Category(body);
    NoUnderscoreInResourceType(rt);
    NoUnderscoreInCategory(body);
    PublicIdSplits(rt, cat, year, month0, now);
  }

  lemma NoUnderscoreInResourceType(rt: string)
    requires rt in ResourceTypes || rt == "misc"
    ensures '_' !in rt
  {
  }

  lemma NoUnderscoreInCategory(body: Option<map<string, string>>)
    ensures '_' !in Category(body)
  {
    assert !Allowed('_');
  }
}
