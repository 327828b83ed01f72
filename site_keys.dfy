/** Site keys: a contig and an end coordinate joined by an underscore. */
module SiteKeys {

  /** `f"{contig}_{end}"` */
  function JoinKey(contig: string, end: string): (key: string)
    ensures |key| == |contig| + 1 + |end|
    ensures key[..|contig|] == contig && key[|contig|] == '_' && key[|contig| + 1..] == end
  {
    contig + "_" + end
  }

  /**
   * End coordinates are digit strings, so the last underscore of a key separates
   * the contig from the end: two keys agree only when both parts agree, even for
   * contigs that themselves contain underscores (e.g. unplaced scaffolds).
   */
  lemma JoinKeyInjective(c1: string, e1: string, c2: string, e2: string)
    requires '_' !in e1 && '_' !in e2
    requires JoinKey(c1, e1) == JoinKey(c2, e2)
    ensures c1 == c2 && e1 == e2
  {
  }

  /**
   * The loop that fills a key set from a file's lines: after it, the set holds
   * exactly the keys of the lines read (duplicates collapse).
   */
  method CollectKeys<T>(lines: seq<T>, key: T -> string) returns (keys: set<string>)
    ensures forall k :: k in keys <==> exists i :: 0 <= i < |lines| && key(lines[i]) == k
  {
    keys := {};
    for n := 0 to |lines|
      invariant forall k :: k in keys <==> exists i :: 0 <= i < n && key(lines[i]) == k
    {
      keys := keys + {key(lines[n])};
    }
  }
}
