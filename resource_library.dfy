/**
  * The resource library (src/components/Resources/ResourceLibrary.tsx): the
  * search and filter over the resources, the localized title, the type and
  * difficulty lookups, the tag list and the empty-result notice. The
  * resources themselves are a parameter.
  */
module ResourceLibrary {
  import opened Seqs
  import opened Text
  import opened LanguageContext

  /** A resource record; `hindi` and `tamil` are its optional localized titles. */
  datatype Resource = Resource(
    id: int,
    title: string,
    content: string,
    category: string,
    kind: string,
    difficulty: string,
    tags: seq<string>,
    hindi: Option<string>,
    tamil: Option<string>)

  /** The search box and the two drop-downs; either drop-down may be "all". */
  datatype Filters = Filters(searchTerm: string, category: string, kind: string)

  /** The search term occurs in the English title or the content, ignoring case. */
  predicate MatchesSearch(r: Resource, term: string) {
    Contains(Lower(r.title), Lower(term)) || Contains(Lower(r.content), Lower(term))
  }

  /** The test `filteredResources` applies to one resource. */
  predicate Matches(f: Filters, r: Resource) {
    && MatchesSearch(r, f.searchTerm)
    && (f.category == "all" || r.category == f.category)
    && (f.kind == "all" || r.kind == f.kind)
  }

  /** `Matches` as the callback handed to `filter`. */
  function Keep(f: Filters): Resource -> bool {
    x => Matches(f, x)
  }

  /** `filteredResources`: the resources that match, in their original order. */
  function FilteredResources(resources: seq<Resource>, f: Filters): (r: seq<Resource>)
    ensures IsSubsequence(r, resources)
    ensures forall x :: x in r <==> x in resources && Matches(f, x)
  {
    Filter(resources, Keep(f))
  }

  /** An empty search with both drop-downs on "all" shows every resource, in order. */
  lemma {:induction false} NoFilterKeepsAll(resources: seq<Resource>)
    ensures FilteredResources(resources, Filters("", "all", "all")) == resources
  {
    forall x | x in resources ensures Matches(Filters("", "all", "all"), x) {
      EmptyIsContained(Lower(x.title));
    }
    FilterKeepsAll(resources, Keep(Filters("", "all", "all")));
  }

  /** The search ignores case: terms that differ only in case select the same resources. */
  lemma {:induction false} SearchIgnoresCase(resources: seq<Resource>, f: Filters, term: string)
    requires SameUpToCase(f.searchTerm, term)
    ensures FilteredResources(resources, f) == FilteredResources(resources, f.(searchTerm := term))
  {
    LowerUpToCase(f.searchTerm, term);
    FilterCongruent(resources, Keep(f), Keep(f.(searchTerm := term)));
  }

  /** The search reads the English title and the content only, never the localized titles. */
  lemma SearchIgnoresLocalizedTitles(f: Filters, r: Resource, hindi: Option<string>, tamil: Option<string>)
    ensures Matches(f, r) == Matches(f, r.(hindi := hindi, tamil := tamil))
  {
  }

  /** A localized title is used when present and non-empty. */
  predicate Usable(title: Option<string>) {
    title.Some? && title.value != ""
  }

  /**
    * `getResourceTitle`: the Hindi title for Hindi, the Tamil title for
    * Tamil, when the resource has a non-empty one; the English title otherwise.
    */
  function ResourceTitle(r: Resource, language: Language): (title: string)
    ensures language == Hindi && Usable(r.hindi) ==> title == r.hindi.value
    ensures language == Tamil && Usable(r.tamil) ==> title == r.tamil.value
    ensures (language == English || (language == Hindi && !Usable(r.hindi)) || (language == Tamil && !Usable(r.tamil)))
              ==> title == r.title
  {
    if language == Hindi && Usable(r.hindi) then r.hindi.value
    else if language == Tamil && Usable(r.tamil) then r.tamil.value
    else r.title
  }

  datatype Icon = Play | BookOpen | FileText

  /** `getTypeIcon`: videos play, guides are books, anything else is a document. */
  function TypeIcon(kind: string): (icon: Icon)
    ensures icon == Play <==> kind == "video"
    ensures icon == BookOpen <==> kind == "guide"
    ensures icon == FileText <==> kind != "video" && kind != "guide"
  {
    match kind
    case "video" => Play
    case "guide" => BookOpen
    case "article" => FileText
    case _ => FileText
  }

  /** `getTypeColor`: red for videos, blue for guides, green for articles, gray for any other type. */
  function TypeColor(kind: string): (color: string)
    ensures kind == "video" <==> color == "bg-red-100 text-red-800"
    ensures kind == "guide" <==> color == "bg-blue-100 text-blue-800"
    ensures kind == "article" <==> color == "bg-green-100 text-green-800"
    ensures kind !in {"video", "guide", "article"} <==> color == "bg-gray-100 text-gray-800"
  {
    match kind
    case "video" => "bg-red-100 text-red-800"
    case "guide" => "bg-blue-100 text-blue-800"
    case "article" => "bg-green-100 text-green-800"
    case _ => "bg-gray-100 text-gray-800"
  }

  /** `getDifficultyColor`: green, yellow and red by level, gray for any other value. */
  function DifficultyColor(difficulty: string): (color: string)
    ensures difficulty == "beginner" <==> color == "bg-green-100 text-green-800"
    ensures difficulty == "intermediate" <==> color == "bg-yellow-100 text-yellow-800"
    ensures difficulty == "advanced" <==> color == "bg-red-100 text-red-800"
    ensures difficulty !in {"beginner", "intermediate", "advanced"} <==> color == "bg-gray-100 text-gray-800"
  {
    match difficulty
    case "beginner" => "bg-green-100 text-green-800"
    case "intermediate" => "bg-yellow-100 text-yellow-800"
    case "advanced" => "bg-red-100 text-red-800"
    case _ => "bg-gray-100 text-gray-800"
  }

  /** The card's tags: the first three, or all of them when there are fewer. */
  function ShownTags(tags: seq<string>): (shown: seq<string>)
    ensures |shown| <= 3 && IsPrefix(shown, tags)
    ensures |shown| == if |tags| < 3 then |tags| else 3
  {
    if |tags| <= 3 then tags else tags[..3]
  }

  predicate IsPrefix(a: seq<string>, b: seq<string>) {
    |a| <= |b| && b[..|a|] == a
  }

  /** The card's button: "Watch" for a video, "Read" for anything else. */
  function ActionLabel(kind: string): (caption: string)
    ensures caption == "Watch" <==> kind == "video"
    ensures caption == "Read" <==> kind != "video"
  {
    if kind == "video" then "Watch" else "Read"
  }

  /** "No resources found" is shown exactly when no resource passes the search and filters. */
  function ShowsNoResults(resources: seq<Resource>, f: Filters): (shown: bool)
    ensures shown <==> forall x :: x in resources ==> !Matches(f, x)
  {
    var filtered := FilteredResources(resources, f);
    assert filtered != [] ==> filtered[0] in filtered;
    |filtered| == 0
  }
}
