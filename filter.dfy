/** The search filter of the downloads section (src/App.jsx:58-61): a tag is kept
    when its lowered name or lowered version contains the lowered search term. */
module Filter {
  import opened Text
  import opened Tags

  /** The test the filter applies to one tag (src/App.jsx:59-60). An empty term
      matches every tag; a matching term is never longer than both the name
      and the version. */
  predicate Matches(t: ViewTag, term: string): (r: bool)
    ensures term == "" ==> r
    ensures r ==> |term| <= |t.name| || |term| <= |t.version|
  {
    assert Lower("") == "";
    ContainsEmpty(Lower(t.name));
    Contains(Lower(t.name), Lower(term)) || Contains(Lower(t.version), Lower(term))
  }

  /** `tags.filter(tag => Matches(tag, term))`. */
  function FilterTags(tags: seq<ViewTag>, term: string): (r: seq<ViewTag>)
    ensures |r| <= |tags|
    decreases |tags|
  {
    if tags == [] then []
    else (if Matches(tags[0], term) then [tags[0]] else []) + FilterTags(tags[1..], term)
  }

  /** A tag is in the result exactly when it is in the input and matches. */
  lemma {:induction false} FilterExact(tags: seq<ViewTag>, term: string, t: ViewTag)
    ensures t in FilterTags(tags, term) <==> t in tags && Matches(t, term)
    decreases |tags|
  {
    if tags != [] {
      FilterExact(tags[1..], term, t);
      assert tags == [tags[0]] + tags[1..];
    }
  }

  lemma FilterExactAll(tags: seq<ViewTag>, term: string)
    ensures forall t :: t in FilterTags(tags, term) <==> t in tags && Matches(t, term)
  {
    forall t {
      FilterExact(tags, term, t);
    }
  }

  /** Filtering a concatenation filters each part, keeping their order. */
  lemma {:induction false} FilterConcat(a: seq<ViewTag>, b: seq<ViewTag>, term: string)
    ensures FilterTags(a + b, term) == FilterTags(a, term) + FilterTags(b, term)
    decreases |a|
  {
    if a != [] {
      FilterConcat(a[1..], b, term);
      assert (a + b)[0] == a[0];
      assert (a + b)[1..] == a[1..] + b;
    } else {
      assert a + b == b;
    }
  }

  /** `r` is obtained from `s` by deleting elements, without reordering. */
  ghost predicate SubsequenceOf<T>(r: seq<T>, s: seq<T>)
    decreases |s|
  {
    r == [] || (s != [] && ((r[0] == s[0] && SubsequenceOf(r[1..], s[1..])) || SubsequenceOf(r, s[1..])))
  }

  /** The filter keeps the received order. */
  lemma {:induction false} FilterKeepsOrder(tags: seq<ViewTag>, term: string)
    ensures SubsequenceOf(FilterTags(tags, term), tags)
    decreases |tags|
  {
    if tags != [] {
      FilterKeepsOrder(tags[1..], term);
      var rest := FilterTags(tags[1..], term);
      if Matches(tags[0], term) {
        assert FilterTags(tags, term) == [tags[0]] + rest;
        assert ([tags[0]] + rest)[0] == tags[0];
        assert ([tags[0]] + rest)[1..] == rest;
      } else {
        assert FilterTags(tags, term) == rest;
      }
    }
  }

  /** An empty search term keeps every tag. */
  lemma {:induction false} FilterEmptyTerm(tags: seq<ViewTag>)
    ensures FilterTags(tags, "") == tags
    decreases |tags|
  {
    if tags != [] {
      FilterEmptyTerm(tags[1..]);
      ContainsEmpty(Lower(tags[0].name));
      assert Lower("") == "";
      assert tags == [tags[0]] + tags[1..];
    }
  }

  /** The filter ignores the case of the search term. */
  lemma MatchesIgnoresTermCase(t: ViewTag, term: string)
    ensures Matches(t, term) == Matches(t, Lower(term))
  {
    LowerIdempotent(term);
  }

  lemma {:induction false} FilterIgnoresTermCase(tags: seq<ViewTag>, term: string)
    ensures FilterTags(tags, term) == FilterTags(tags, Lower(term))
    decreases |tags|
  {
    if tags != [] {
      FilterIgnoresTermCase(tags[1..], term);
      MatchesIgnoresTermCase(tags[0], term);
    }
  }

  /** Filtering twice with the same term is filtering once. */
  lemma {:induction false} FilterIdempotent(tags: seq<ViewTag>, term: string)
    ensures FilterTags(FilterTags(tags, term), term) == FilterTags(tags, term)
    decreases |tags|
  {
    if tags != [] {
      var rest := FilterTags(tags[1..], term);
      FilterIdempotent(tags[1..], term);
      if Matches(tags[0], term) {
        assert FilterTags(tags, term) == [tags[0]] + rest;
        assert ([tags[0]] + rest)[0] == tags[0];
        assert ([tags[0]] + rest)[1..] == rest;
      } else {
        assert FilterTags(tags, term) == rest;
      }
    }
  }

  /** For formatted tags, whose version is their name, only the name decides. */
  lemma MatchesByName(t: ViewTag, term: string)
    requires t.version == t.name
    ensures Matches(t, term) <==> exists i :: OccursAt(Lower(t.name), Lower(term), i)
  {
    ContainsIff(Lower(t.name), Lower(term));
  }
}
