/** List operations of the .NET collections the panes use. */
module Lists {
  /** `List.RemoveAt(index)`: the entry at the index goes and the later entries
      move up by one. */
  function RemoveAt<T>(s: seq<T>, index: nat): (r: seq<T>)
    requires index < |s|
    ensures |r| == |s| - 1
    ensures forall k :: 0 <= k < |r| ==> r[k] == if k < index then s[k] else s[k + 1]
  {
    s[..index] + s[index + 1..]
  }

  /** Adding an entry and removing it again gives the list back. */
  lemma RemoveAtLast<T>(s: seq<T>, x: T)
    ensures RemoveAt(s + [x], |s|) == s
  {
  }

  /** Every entry left after a removal is an entry of the list before it, so a
      property of every entry survives the removal. */
  lemma RemoveAtKeeps<T>(s: seq<T>, index: nat, p: T -> bool)
    requires index < |s|
    requires forall i :: 0 <= i < |s| ==> p(s[i])
    ensures forall i :: 0 <= i < |RemoveAt(s, index)| ==> p(RemoveAt(s, index)[i])
  {
    var r := RemoveAt(s, index);
    forall i | 0 <= i < |r|
      ensures p(r[i])
    {
      if i < index {
        assert r[i] == s[i];
      } else {
        assert r[i] == s[i + 1];
      }
    }
  }
}
