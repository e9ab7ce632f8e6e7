/**
 * The media manager page: the search and filters over the resource list,
 * the sorted lists of categories and types offered as filters, and the
 * deletion of a resource together with its uploaded file.
 */
module Media {
  import opened Wrappers
  import opened Strings
  import opened Lists
  import opened Sorting
  import opened Resources
  import opened Storage

  /** The search and the two filters; an empty filter lets everything through. */
  predicate Matches(r: Resource, term: string, categoryFilter: string, typeFilter: string) {
    var t := Lower(term);
    (Contains(Lower(r.title), t) || (r.description.Some? && Contains(Lower(r.description.value), t)))
    && (categoryFilter == "" || r.category == Some(categoryFilter))
    && (typeFilter == "" || r.kind == typeFilter)
  }

  /** `resources.filter(...)`: the matching resources, in list order. */
  function FilteredResources(rs: seq<Resource>, term: string, categoryFilter: string, typeFilter: string): (r: seq<Resource>)
    ensures forall x :: x in r <==> x in rs && Matches(x, term, categoryFilter, typeFilter)
  {
    var keep := (x: Resource) => Matches(x, term, categoryFilter, typeFilter);
    var r := Filter(rs, keep);
    assert forall x :: x in r ==> x in multiset(rs);
    assert forall i :: 0 <= i < |rs| && keep(rs[i]) ==> rs[i] in multiset(r);
    r
  }

  /** With no search and no filter, every resource is listed, in its order. */
  lemma NoFilterKeepsAll(rs: seq<Resource>)
    ensures FilteredResources(rs, "", "", "") == rs
  {
    forall i | 0 <= i < |rs| ensures Matches(rs[i], "", "", "") {
      ContainsEmpty(Lower(rs[i].title));
    }
    FilterAll(rs, (x: Resource) => Matches(x, "", "", ""));
  }

  /** Filtering keeps the relative order: the filter of a concatenation is the concatenation of the filters. */
  lemma FilterKeepsOrder(a: seq<Resource>, b: seq<Resource>, term: string, categoryFilter: string, typeFilter: string)
    ensures FilteredResources(a + b, term, categoryFilter, typeFilter) ==
      FilteredResources(a, term, categoryFilter, typeFilter) + FilteredResources(b, term, categoryFilter, typeFilter)
  {
    FilterConcat(a, b, (x: Resource) => Matches(x, term, categoryFilter, typeFilter));
  }

  /** The non-empty categories, in list order (`map(r => r.category).filter(Boolean)`). */
  function CategoryNames(rs: seq<Resource>): (r: seq<string>)
    ensures forall c :: c in r <==> c != "" && exists i :: 0 <= i < |rs| && rs[i].category == Some(c)
  {
    if rs == [] then []
    else
      var rest := CategoryNames(rs[1..]);
      assert forall i :: 0 < i < |rs| ==> rs[i] == rs[1..][i - 1];
      if Truthy(rs[0].category) then [rs[0].category.value] + rest else rest
  }

  /** The non-empty types, in list order. */
  function TypeNames(rs: seq<Resource>): (r: seq<string>)
    ensures forall t :: t in r <==> t != "" && exists i :: 0 <= i < |rs| && rs[i].kind == t
  {
    if rs == [] then []
    else
      var rest := TypeNames(rs[1..]);
      assert forall i :: 0 < i < |rs| ==> rs[i] == rs[1..][i - 1];
      if rs[0].kind != "" then [rs[0].kind] + rest else rest
  }

  function ByText(): (string, string) -> bool {
    (a: string, b: string) => Less(a, b)
  }

  /** `[...new Set(names)].sort()`: each name once, in increasing order. */
  function UniqueSorted(names: seq<string>): (r: seq<string>)
    ensures Distinct(r)
    ensures forall x :: x in r <==> x in names
    ensures StrictlySorted(r, ByText())
  {
    var d := Dedup(names);
    var r := SortBy(d, ByText());
    assert forall x :: x in r <==> x in multiset(d);
    DistinctPermutation(d, r);
    TextOrderStrict(d);
    SortByStrictlySorted(d, ByText());
    r
  }

  lemma TextOrderStrict(s: seq<string>)
    ensures StrictTotalOn(s, ByText())
  {
    var before := ByText();
    forall a | a in s ensures !before(a, a) {
      LessIrreflexive(a);
    }
    forall a, b | a in s && b in s && a != b ensures before(a, b) || before(b, a) {
      LessTotal(a, b);
    }
    forall a, b, c | a in s && b in s && c in s && before(a, b) && before(b, c) ensures before(a, c) {
      LessTransitive(a, b, c);
    }
  }

  /** `resources.find(r => r.id === id)`: the first resource with that id. */
  function FindById(rs: seq<Resource>, id: string): (r: Option<Resource>)
    ensures r.None? <==> forall i :: 0 <= i < |rs| ==> rs[i].id != id
    ensures r.Some? ==>
      exists i :: 0 <= i < |rs| && rs[i] == r.value && r.value.id == id && forall j :: 0 <= j < i ==> rs[j].id != id
  {
    if rs == [] then None
    else if rs[0].id == id then Some(rs[0])
    else
      var r := FindById(rs[1..], id);
      assert forall i :: 0 < i < |rs| ==> rs[i] == rs[1..][i - 1];
      if r.Some? then
        var i :| 0 <= i < |rs[1..]| && rs[1..][i] == r.value && r.value.id == id &&
          forall j :: 0 <= j < i ==> rs[1..][j].id != id;
        assert rs[i + 1] == r.value;
        r
      else r
  }

  /**
   * The file the page asks storage to remove: for a resource whose URL is a
   * public file of the bucket, the URL from its first `resource_uploads/` on.
   */
  function StoredFile(r: Option<Resource>): (key: Option<string>)
    ensures key.Some? <==> r.Some? && Truthy(r.value.mediaUrl) && Contains(r.value.mediaUrl.value, PublicMarker)
    ensures key.Some? ==> |BucketSegment| <= |key.value| && key.value[..|BucketSegment|] == BucketSegment
  {
    if r.Some? && Truthy(r.value.mediaUrl) && Contains(r.value.mediaUrl.value, PublicMarker)
    then Some(StoragePathAsWritten(r.value.mediaUrl.value))
    else None
  }

  /**
   * Deleting an uploaded resource asks storage to remove the bucket segment
   * followed by the upload key, which is not the key the file was stored under.
   */
  lemma StoredFileMissesUpload(r: Resource, project: string, fileName: string)
    requires PlainProject(project) && r.mediaUrl == Some(PublicUrl(project, UploadKey(fileName)))
    ensures StoredFile(Some(r)) == Some(BucketSegment + UploadKey(fileName))
    ensures StoredFile(Some(r)) != Some(UploadKey(fileName))
  {
    AsWrittenMissesUpload(project, fileName);
  }

  /** How a deletion ends. */
  datatype DeleteOutcome = Deleted(title: string) | DeleteFailed(message: string)

  const LoadErrorMessage: string := "Não foi possível carregar os recursos."

  /** The state of `MediaManagerPage`. */
  class MediaManager {
    var resources: seq<Resource>
    var isLoading: bool
    var error: Option<string>
    var isFormOpen: bool
    var editingResource: Option<Resource>
    var searchTerm: string
    var categoryFilter: string
    var typeFilter: string

    constructor()
      ensures resources == [] && isLoading && error.None? && !isFormOpen && editingResource.None?
      ensures searchTerm == "" && categoryFilter == "" && typeFilter == ""
    {
      resources, isLoading, error, isFormOpen, editingResource := [], true, None, false, None;
      searchTerm, categoryFilter, typeFilter := "", "", "";
    }

    /** What the page lists. */
    function Shown(): seq<Resource>
      reads this
    {
      FilteredResources(resources, searchTerm, categoryFilter, typeFilter)
    }

    /** `fetchResources()`: `reply` is the table ordered by creation, newest first, or `None` when the read failed. */
    method FetchResources(reply: Option<seq<Resource>>)
      modifies this`resources, this`isLoading, this`error
      ensures reply.Some? ==> resources == reply.value && error.None?
      ensures reply.None? ==> resources == old(resources) && error == Some(LoadErrorMessage)
      ensures !isLoading
    {
      isLoading := true;
      error := None;
      if reply.Some? {
        resources := reply.value;
      } else {
        error := Some(LoadErrorMessage);
      }
      isLoading := false;
    }

    /** `handleAddNewResource()`. */
    method HandleAddNewResource()
      modifies this`editingResource, this`isFormOpen
      ensures editingResource.None? && isFormOpen
    {
      editingResource := None;
      isFormOpen := true;
    }

    /** `handleEditResource(resource)`. */
    method HandleEditResource(resource: Resource)
      modifies this`editingResource, this`isFormOpen
      ensures editingResource == Some(resource) && isFormOpen
    {
      editingResource := Some(resource);
      isFormOpen := true;
    }

    /**
     * `handleDeleteResource(id, title)`: the file of an uploaded resource is
     * removed first, and a failure there (`storageError`) only warns; then
     * the row is deleted and, when that succeeds, the list is read again.
     */
    method HandleDeleteResource(resourceId: string, resourceTitle: string, storageError: Option<string>,
                                dbError: Option<string>, refetched: Option<seq<Resource>>)
      returns (removedFile: Option<string>, warning: bool, outcome: DeleteOutcome)
      modifies this`resources, this`isLoading, this`error
      ensures removedFile == StoredFile(FindById(old(resources), resourceId))
      ensures warning <==> removedFile.Some? && storageError.Some?
      ensures dbError.None? ==> outcome == Deleted(resourceTitle)
      ensures dbError.None? && refetched.Some? ==> resources == refetched.value && error.None? && !isLoading
      ensures dbError.None? && refetched.None? ==> resources == old(resources) && error == Some(LoadErrorMessage)
      ensures dbError.Some? ==>
        outcome == DeleteFailed(dbError.value) && resources == old(resources) && error == old(error) && isLoading == old(isLoading)
    {
      removedFile := StoredFile(FindById(resources, resourceId));
      warning := removedFile.Some? && storageError.Some?;
      if dbError.Some? {
        return removedFile, warning, DeleteFailed(dbError.value);
      }
      outcome := Deleted(resourceTitle);
      FetchResources(refetched);
    }

    /** `handleSaveSuccess()`: the list is read again. */
    method HandleSaveSuccess(refetched: Option<seq<Resource>>)
      modifies this`resources, this`isLoading, this`error
      ensures refetched.Some? ==> resources == refetched.value && error.None?
      ensures refetched.None? ==> resources == old(resources) && error == Some(LoadErrorMessage)
      ensures !isLoading
    {
      FetchResources(refetched);
    }
  }
}
