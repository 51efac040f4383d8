/**
 * Search and sort of the local collection (src/hooks/useGalleryFilters.ts):
 * a copy of the artifacts, kept when the query occurs in one of their text
 * fields, then ordered by the chosen option.
 *
 * `localeCompare` is a parameter: an ordering of strings, required to be a
 * total preorder where the name order's properties are stated.
 */
module GalleryFilters {
  import opened Wrappers
  import opened Strings
  import opened Artifacts
  import Seqs

  datatype SortOption = Newest | Oldest | Name

  /** `field?.toLowerCase() || ''`. */
  function LowerOrEmpty(field: Option<string>): string
  {
    if field.Some? then ToLower(field.value) else ""
  }

  /** The five texts searched: name, discovery location, site, the tags joined by spaces, notes. */
  function SearchTexts(m: ArtifactMetadata): seq<string>
  {
    [ LowerOrEmpty(m.name),
      LowerOrEmpty(m.discoveryLocation),
      LowerOrEmpty(m.siteName),
      if m.tags.Some? then ToLower(Join(m.tags.value, " ")) else "",
      LowerOrEmpty(m.notes) ]
  }

  /** The filter's predicate: the lower-cased (untrimmed) query occurs in one of the five texts. */
  predicate Matches(a: Artifact, query: string)
  {
    exists k :: 0 <= k < 5 && Contains(SearchTexts(a.metadata)[k], ToLower(query))
  }

  /** The name the name sort compares: `metadata.name || ''`. */
  function SortName(a: Artifact): string
  {
    OrDefault(a.metadata.name, "")
  }

  /** The comparator, as "may come first". */
  function Before(sortBy: SortOption, collate: (string, string) -> bool): (Artifact, Artifact) -> bool
  {
    match sortBy
    case Newest => (a: Artifact, b: Artifact) => a.createdAt >= b.createdAt
    case Oldest => (a: Artifact, b: Artifact) => a.createdAt <= b.createdAt
    case Name => (a: Artifact, b: Artifact) => collate(SortName(a), SortName(b))
  }

  /** `filteredArtifacts`: filtered when the trimmed query is non-empty, then stably sorted. */
  function FilteredArtifacts(artifacts: seq<Artifact>, query: string, sortBy: SortOption,
                             collate: (string, string) -> bool): seq<Artifact>
  {
    var kept := if Trim(query) != "" then Seqs.Filter(artifacts, (a: Artifact) => Matches(a, query)) else artifacts;
    Seqs.Sort(kept, Before(sortBy, collate))
  }

  /** With a total preorder for names, each option's comparator orders all artifacts. */
  lemma BeforeIsTotalPreorder(sortBy: SortOption, collate: (string, string) -> bool)
    requires sortBy == Name ==> Seqs.TotalPreorder(collate)
    ensures Seqs.TotalPreorder(Before(sortBy, collate))
  {
    if sortBy == Name {
      var le := Before(sortBy, collate);
      forall a, b ensures le(a, b) || le(b, a) {
        assert collate(SortName(a), SortName(b)) || collate(SortName(b), SortName(a));
      }
      forall a, b, c | le(a, b) && le(b, c) ensures le(a, c) {
        assert collate(SortName(a), SortName(b)) && collate(SortName(b), SortName(c));
      }
    }
  }

  /**
   * The result holds exactly the matching artifacts (all of them, when the
   * trimmed query is empty), each as often as in the input.
   */
  lemma FilteredContents(artifacts: seq<Artifact>, query: string, sortBy: SortOption,
                         collate: (string, string) -> bool)
    ensures var r := FilteredArtifacts(artifacts, query, sortBy, collate);
      && |r| <= |artifacts|
      && multiset(r) <= multiset(artifacts)
      && (Trim(query) == "" ==> multiset(r) == multiset(artifacts))
      && (Trim(query) != "" ==> forall a :: a in r <==> a in artifacts && Matches(a, query))
      && (Trim(query) != "" ==> forall a :: Matches(a, query) ==> multiset(r)[a] == multiset(artifacts)[a])
  {
    var kept := if Trim(query) != "" then Seqs.Filter(artifacts, (a: Artifact) => Matches(a, query)) else artifacts;
    Seqs.SortPermutes(kept, Before(sortBy, collate));
    var r := FilteredArtifacts(artifacts, query, sortBy, collate);
    assert multiset(r) == multiset(kept);
    assert |r| == |multiset(r)| && |kept| == |multiset(kept)|;
    assert |multiset(kept)| <= |multiset(artifacts)| by {
      assert multiset(kept) <= multiset(artifacts);
    }
    if Trim(query) != "" {
      forall a | Matches(a, query) ensures multiset(r)[a] == multiset(artifacts)[a] {
        Seqs.FilterMultiset(artifacts, (a: Artifact) => Matches(a, query), a);
      }
    }
    forall a ensures a in r <==> a in kept {
      assert a in r <==> a in multiset(r);
      assert a in kept <==> a in multiset(kept);
    }
  }

  /** 'newest' orders by creation time, latest first. */
  lemma NewestFirst(artifacts: seq<Artifact>, query: string, collate: (string, string) -> bool)
    ensures var r := FilteredArtifacts(artifacts, query, Newest, collate);
      forall i, j :: 0 <= i < j < |r| ==> r[i].createdAt >= r[j].createdAt
  {
    var kept := if Trim(query) != "" then Seqs.Filter(artifacts, (a: Artifact) => Matches(a, query)) else artifacts;
    BeforeIsTotalPreorder(Newest, collate);
    Seqs.SortCorrect(kept, Before(Newest, collate));
  }

  /** 'oldest' orders by creation time, earliest first. */
  lemma OldestFirst(artifacts: seq<Artifact>, query: string, collate: (string, string) -> bool)
    ensures var r := FilteredArtifacts(artifacts, query, Oldest, collate);
      forall i, j :: 0 <= i < j < |r| ==> r[i].createdAt <= r[j].createdAt
  {
    var kept := if Trim(query) != "" then Seqs.Filter(artifacts, (a: Artifact) => Matches(a, query)) else artifacts;
    BeforeIsTotalPreorder(Oldest, collate);
    Seqs.SortCorrect(kept, Before(Oldest, collate));
  }

  /** 'name' orders by the names (a missing name counting as '') under the collation. */
  lemma ByName(artifacts: seq<Artifact>, query: string, collate: (string, string) -> bool)
    requires Seqs.TotalPreorder(collate)
    ensures var r := FilteredArtifacts(artifacts, query, Name, collate);
      forall i, j :: 0 <= i < j < |r| ==> collate(SortName(r[i]), SortName(r[j]))
  {
    var kept := if Trim(query) != "" then Seqs.Filter(artifacts, (a: Artifact) => Matches(a, query)) else artifacts;
    BeforeIsTotalPreorder(Name, collate);
    Seqs.SortCorrect(kept, Before(Name, collate));
  }

  /** A query of white space only filters nothing out. */
  lemma BlankQueryKeepsAll(artifacts: seq<Artifact>, query: string, sortBy: SortOption,
                           collate: (string, string) -> bool)
    requires forall i :: 0 <= i < |query| ==> IsSpace(query[i])
    ensures multiset(FilteredArtifacts(artifacts, query, sortBy, collate)) == multiset(artifacts)
  {
    assert TrimStart(query) == [];
    FilteredContents(artifacts, query, sortBy, collate);
  }
}
