/** The response filter: include or exclude, by type. */
module Filter {
  import opened PathPattern
  import opened JsonTree
  import opened Api
  import Projection
  import Deletion
  import PathTrie

  function Filtered(data: Json, f: ResponseFilter): Json {
    if f.kind == FILTER_INCLUDE then Projection.Project(data, Patterns(f.fields)) else Deletion.Exclude(data, f.fields)
  }

  method Apply(data: Json, f: ResponseFilter) returns (r: Json)
    ensures r == Filtered(data, f)
    ensures f.kind == "include_fields" ==> r == Projection.Project(data, Patterns(f.fields))
    ensures f.kind != "include_fields" ==> r == Deletion.Exclude(data, f.fields)
  {
    if f.kind == FILTER_INCLUDE {
      r := PathTrie.ApplyInclude(data, f.fields);
      return;
    }
    r := Deletion.ApplyExclude(data, f.fields);
  }

  /** Does the filter let leaves at path `p` through? */
  ghost predicate Lets(f: ResponseFilter, p: seq<Step>) {
    if f.kind == FILTER_INCLUDE then Projection.Accepts(Patterns(f.fields), p)
    else !Deletion.Removed(Deletion.ByDottedPath(f.fields), [], p)
  }

  /** Either filter passes on some of the leaf paths with all their leaves, and nothing else. */
  lemma FilteredLeaves(data: Json, f: ResponseFilter, p: seq<Step>, v: Value)
    ensures Count(Filtered(data, f), p, v) == if Lets(f, p) then Count(data, p, v) else 0
  {
    if f.kind == FILTER_INCLUDE {
      Projection.LeafConservation(data, Patterns(f.fields), p, v);
    } else {
      Deletion.LeafDeletion(data, Deletion.ByDottedPath(f.fields), [], p, v);
    }
  }

  /** Filtering a filtered document again changes nothing. */
  lemma FilteredTwice(data: Json, f: ResponseFilter)
    ensures Filtered(Filtered(data, f), f) == Filtered(data, f)
  {
    if f.kind == FILTER_INCLUDE {
      Projection.ProjectIdempotent(data, Patterns(f.fields));
    } else {
      Deletion.ExcludeIdempotentCommutes(data, f.fields, f.fields);
    }
  }
}
