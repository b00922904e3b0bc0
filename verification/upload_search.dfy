/**
 * The search box of the uploads page: the `UploadFile` record, the match test
 * and the filter `handleSearch` applies, and the page state it updates.
 */
module UploadSearch {
  import opened Wrappers
  import opened Text

  /** One entry of the uploads list as the page receives it. */
  datatype Upload = Upload(
    id: string,
    name: string,
    fileUrl: string,
    fileType: string,
    thumbnailUrl: Option<string>,
    description: Option<string>,
    tags: seq<string>,
    createdAt: string,
    size: Option<nat>,
    mediaType: Option<string>)

  /** The part of the page state the search touches. */
  datatype PageState = PageState(uploads: seq<Upload>, filtered: seq<Upload>, searchQuery: string)

  /** `a` is obtained from `b` by deleting elements, keeping the rest in order. */
  ghost predicate IsSubsequence<T>(a: seq<T>, b: seq<T>)
    decreases |b|
  {
    if |a| == 0 then true
    else if |b| == 0 then false
    else (a[0] == b[0] && IsSubsequence(a[1..], b[1..])) || IsSubsequence(a, b[1..])
  }

  /** Some tag of the upload contains `q` once lowercased. */
  predicate SomeTagIncludes(tags: seq<string>, q: string)
  {
    exists i :: 0 <= i < |tags| && Includes(Lower(tags[i]), q)
  }

  /** Some tag contains `q` at some position once lowercased. */
  lemma SomeTagIncludesIffOccurs(tags: seq<string>, q: string)
    ensures SomeTagIncludes(tags, q) <==> exists t, i :: 0 <= t < |tags| && OccursAt(Lower(tags[t]), q, i)
  {
    forall t | 0 <= t < |tags| {
      IncludesIffOccurs(Lower(tags[t]), q);
    }
  }

  /** The filter test for an already lowercased query `q`: the name, the description when it is
      not null, or some tag contains `q` once lowercased. */
  function Matches(u: Upload, q: string): (b: bool)
    ensures b <==>
      || (exists i :: OccursAt(Lower(u.name), q, i))
      || (u.description.Some? && exists i :: OccursAt(Lower(u.description.value), q, i))
      || (exists t, i :: 0 <= t < |u.tags| && OccursAt(Lower(u.tags[t]), q, i))
  {
    IncludesIffOccurs(Lower(u.name), q);
    SomeTagIncludesIffOccurs(u.tags, q);
    || Includes(Lower(u.name), q)
    || (u.description.Some? && (IncludesIffOccurs(Lower(u.description.value), q);
                                Includes(Lower(u.description.value), q)))
    || SomeTagIncludes(u.tags, q)
  }

  /** `uploads.filter(upload => Matches(upload, q))` */
  function Filter(uploads: seq<Upload>, q: string): (r: seq<Upload>)
    ensures |r| <= |uploads|
    ensures forall u :: u in r <==> u in uploads && Matches(u, q)
    ensures forall u :: multiset(r)[u] == if Matches(u, q) then multiset(uploads)[u] else 0
  {
    if |uploads| == 0 then []
    else
      assert uploads == [uploads[0]] + uploads[1..];
      (if Matches(uploads[0], q) then [uploads[0]] else []) + Filter(uploads[1..], q)
  }

  /** The filter keeps the relative order of the uploads it returns. */
  lemma {:induction false} FilterIsSubsequence(uploads: seq<Upload>, q: string)
    ensures IsSubsequence(Filter(uploads, q), uploads)
  {
    if |uploads| > 0 {
      FilterIsSubsequence(uploads[1..], q);
      if !Matches(uploads[0], q) {
        var r := Filter(uploads, q);
        if |r| > 0 {
          assert r == Filter(uploads[1..], q);
        }
      }
    }
  }

  /** `handleSearch(query)`: records the query; a blank query shows every upload, any other
      query shows the uploads matching its lowercased (untrimmed) form, in their original order. */
  function HandleSearch(s: PageState, query: string): (r: PageState)
    ensures r.searchQuery == query && r.uploads == s.uploads
    ensures AllWhitespace(query) ==> r.filtered == s.uploads
    ensures !AllWhitespace(query) ==>
      forall u :: u in r.filtered <==> u in s.uploads && Matches(u, Lower(query))
    ensures !AllWhitespace(query) ==>
      forall u :: multiset(r.filtered)[u] == if Matches(u, Lower(query)) then multiset(s.uploads)[u] else 0
    ensures IsSubsequence(r.filtered, s.uploads)
  {
    TrimEmptyIffBlank(query);
    if Trim(query) == "" then
      SubsequenceReflexive(s.uploads);
      s.(filtered := s.uploads, searchQuery := query)
    else
      var q := Lower(query);
      FilterIsSubsequence(s.uploads, q);
      s.(filtered := Filter(s.uploads, q), searchQuery := query)
  }

  /** Every sequence is a subsequence of itself. */
  lemma {:induction false} SubsequenceReflexive<T>(a: seq<T>)
    ensures IsSubsequence(a, a)
  {
    if |a| > 0 {
      SubsequenceReflexive(a[1..]);
    }
  }

  /** A null description never matches by itself: such an upload is shown exactly when its
      name or one of its tags contains the query. */
  lemma NullDescriptionMatchesByNameOrTag(u: Upload, q: string)
    requires u.description.None?
    ensures Matches(u, q) <==> Includes(Lower(u.name), q) || SomeTagIncludes(u.tags, q)
  {
  }

  /** Blankness is decided on the trimmed query but matching uses the untrimmed one, so the
      surrounding spaces of a non-blank query take part in the substring test: " cat" hides
      an upload named "cat" that has no description and no tags. */
  lemma {:induction false} SurroundingSpacesTakePart()
    ensures var u := Upload("1", "cat", "", "image/png", None, None, [], "", None, None);
      var s := HandleSearch(PageState([u], [u], ""), " cat");
      s.filtered == []
  {
    var u := Upload("1", "cat", "", "image/png", None, None, [], "", None, None);
    assert !AllWhitespace(" cat") by {
      assert !IsJsWhitespace(" cat"[1]);
    }
    assert Lower(" cat") == " cat";
    assert Lower("cat") == "cat";
    IncludesIffOccurs("cat", " cat");
    assert !Matches(u, " cat");
  }

  /** `fetchUploads` on success: both lists become the fetched list while the search box keeps
      its text, so a non-blank query no longer filters what is shown. */
  function Refresh(s: PageState, fetched: seq<Upload>): (r: PageState)
    ensures r.searchQuery == s.searchQuery
    ensures r.uploads == fetched && r.filtered == fetched
  {
    PageState(fetched, fetched, s.searchQuery)
  }

  /** After a refresh the shown list can contain uploads the standing query does not match. */
  lemma RefreshDropsFilter(s: PageState, fetched: seq<Upload>, u: Upload)
    requires !AllWhitespace(s.searchQuery)
    requires u in fetched && !Matches(u, Lower(s.searchQuery))
    ensures u in Refresh(s, fetched).filtered
    ensures u !in HandleSearch(Refresh(s, fetched), s.searchQuery).filtered
  {
  }
}
