/**
 * The materials page: the files collected from the chats, searched by name
 * and chat name, filtered by a category read off the MIME type, and coloured
 * by a fixed precedence of MIME-type keywords.
 */
module Materials {
  import opened Wrappers
  import opened Text
  import opened Listing
  import opened Api

  predicate Mentions(f: FileEntry, query: string) {
    ContainsCI(f.name, query) || ContainsCI(f.chatName, query)
  }

  /** `if (searchQuery) filtered = filtered.filter(...)` */
  function Searched(files: seq<FileEntry>, query: string): seq<FileEntry> {
    if query != "" then Filter(files, (f: FileEntry) => Mentions(f, query)) else files
  }

  /** The MIME type a file entry carries (the server always writes one). */
  function TypeOf(f: FileEntry): string {
    OrElse(f.msgType, "")
  }

  /** The category test on the lower-cased type; "all" and unknown categories keep every file. */
  predicate InCategory(fileType: string, category: string) {
    var t := Lower(fileType);
    if category == "document" then Contains(t, "pdf") || Contains(t, "word") || Contains(t, "text")
    else if category == "image" then Contains(t, "image")
    else if category == "video" then Contains(t, "video")
    else if category == "audio" then Contains(t, "audio")
    else if category == "presentation" then Contains(t, "presentation") || Contains(t, "powerpoint")
    else if category == "spreadsheet" then Contains(t, "spreadsheet") || Contains(t, "excel")
    else true
  }

  predicate KnownCategory(category: string) {
    category in ["document", "image", "video", "audio", "presentation", "spreadsheet"]
  }

  /** `if (selectedFilter !== "all") filtered = filtered.filter(...)` */
  function OfCategory(files: seq<FileEntry>, category: string): seq<FileEntry> {
    if category != "all" then Filter(files, (f: FileEntry) => InCategory(TypeOf(f), category)) else files
  }

  /** What the effect stores in `filteredFiles`. */
  function Shown(files: seq<FileEntry>, query: string, category: string): seq<FileEntry> {
    OfCategory(Searched(files, query), category)
  }

  /** A file is shown exactly when it matches the search (if any) and the category. */
  lemma ShownExact(files: seq<FileEntry>, query: string, category: string)
    ensures forall f :: f in Shown(files, query, category) <==>
              f in files && (query == "" || Mentions(f, query)) && InCategory(TypeOf(f), category)
  {
    var s := Searched(files, query);
    FilterMembers(files, (f: FileEntry) => Mentions(f, query));
    FilterMembers(s, (f: FileEntry) => InCategory(TypeOf(f), category));
  }

  /** An unknown category filters nothing out. */
  lemma UnknownCategoryKeepsAll(files: seq<FileEntry>, category: string)
    requires !KnownCategory(category)
    ensures OfCategory(files, category) == files
  {
    if category != "all" {
      FilterAll(files, (f: FileEntry) => InCategory(TypeOf(f), category));
    }
  }

  const Gray: string := "#6b7280"

  /** `getFileColor`: the first keyword of image, video, audio, presentation, spreadsheet, pdf, word/document that the type contains. */
  function FileColor(fileType: string): (r: string)
    ensures var t := Lower(fileType);
            r == Gray <==>
              !(Contains(t, "image") || Contains(t, "video") || Contains(t, "audio") || Contains(t, "presentation")
                || Contains(t, "spreadsheet") || Contains(t, "pdf") || Contains(t, "word") || Contains(t, "document"))
  {
    var t := Lower(fileType);
    if Contains(t, "image") then "#10b981"
    else if Contains(t, "video") then "#f59e0b"
    else if Contains(t, "audio") then "#8b5cf6"
    else if Contains(t, "presentation") then "#ef4444"
    else if Contains(t, "spreadsheet") then "#06b6d4"
    else if Contains(t, "pdf") then "#dc2626"
    else if Contains(t, "word") || Contains(t, "document") then "#2563eb"
    else Gray
  }

  /** The keywords `getFileColor` tests, in its order, each with the colour it returns. */
  const ColorRules: seq<(string, string)> := [
    ("image", "#10b981"), ("video", "#f59e0b"), ("audio", "#8b5cf6"), ("presentation", "#ef4444"),
    ("spreadsheet", "#06b6d4"), ("pdf", "#dc2626"), ("word", "#2563eb"), ("document", "#2563eb")]

  /** The colour is that of the first rule whose keyword the lower-cased type contains. */
  lemma FileColorFirstRule(fileType: string, k: nat)
    requires k < |ColorRules| && Contains(Lower(fileType), ColorRules[k].0)
    requires forall j :: 0 <= j < k ==> !Contains(Lower(fileType), ColorRules[j].0)
    ensures FileColor(fileType) == ColorRules[k].1
  {
    var t := Lower(fileType);
    if k > 0 { assert !Contains(t, ColorRules[0].0); }
    if k > 1 { assert !Contains(t, ColorRules[1].0); }
    if k > 2 { assert !Contains(t, ColorRules[2].0); }
    if k > 3 { assert !Contains(t, ColorRules[3].0); }
    if k > 4 { assert !Contains(t, ColorRules[4].0); }
    if k > 5 { assert !Contains(t, ColorRules[5].0); }
    if k > 6 { assert !Contains(t, ColorRules[6].0); }
  }

  /** With no rule's keyword in the type, the colour is gray. */
  lemma FileColorNoRule(fileType: string)
    requires forall j :: 0 <= j < |ColorRules| ==> !Contains(Lower(fileType), ColorRules[j].0)
    ensures FileColor(fileType) == Gray
  {
    var t := Lower(fileType);
    assert !Contains(t, ColorRules[0].0) && !Contains(t, ColorRules[1].0) && !Contains(t, ColorRules[2].0);
    assert !Contains(t, ColorRules[3].0) && !Contains(t, ColorRules[4].0) && !Contains(t, ColorRules[5].0);
    assert !Contains(t, ColorRules[6].0) && !Contains(t, ColorRules[7].0);
  }

  /** The media categories get their own colour: an image, video or audio file is never gray. */
  lemma MediaIsColoured(fileType: string)
    ensures InCategory(fileType, "image") ==> FileColor(fileType) == "#10b981"
    ensures InCategory(fileType, "video") && !InCategory(fileType, "image") ==> FileColor(fileType) == "#f59e0b"
    ensures InCategory(fileType, "audio") ==> FileColor(fileType) != Gray
  {
  }

  /** The colour ignores letter case, as the category test does. */
  lemma FileColorIgnoresCase(fileType: string)
    ensures FileColor(Lower(fileType)) == FileColor(fileType)
  {
    LowerIdempotent(fileType);
  }
}
