/** The category registry edits. The settings screen and the onboarding
    tag step carry identical copies of `addTag` and `removeTag`; both are
    modelled by the functions here. */
module Registry {
  import opened Seqs
  import opened Text

  /** The registry together with the text of the "new tag" field. */
  datatype TagEditor = TagEditor(tags: seq<string>, input: string)

  predicate AllUpper(tags: seq<string>) {
    forall t | t in tags :: IsUpper(t)
  }

  /** `addTag`: a non-empty input whose upper-cased form is not listed yet
      is appended in upper case and the field is cleared; otherwise both the
      registry and the field stay as they were. */
  function AddTag(tags: seq<string>, input: string): (r: TagEditor)
    ensures r.tags == tags + [Upper(input)] <==> input != "" && Upper(input) !in tags
    ensures r.tags == tags || r.tags == tags + [Upper(input)]
    ensures r.tags == tags ==> r.input == input
    ensures r.tags != tags ==> r.input == ""
    ensures input != "" ==> Upper(input) in r.tags
    ensures NoDup(tags) ==> NoDup(r.tags)
    ensures AllUpper(tags) ==> AllUpper(r.tags)
  {
    if input != "" && Upper(input) !in tags then
      SnocKeepsNoDup(tags, Upper(input));
      TagEditor(tags + [Upper(input)], "")
    else TagEditor(tags, input)
  }

  /** Adding the same label twice is adding it once. */
  lemma AddTagTwice(tags: seq<string>, input: string)
    ensures AddTag(AddTag(tags, input).tags, input).tags == AddTag(tags, input).tags
  {
  }

  /** Labels differing only in letter case are the same label. */
  lemma AddTagIgnoresCase(tags: seq<string>, input: string)
    ensures AddTag(tags, Upper(input)).tags == AddTag(tags, input).tags
  {
    UpperIdempotent(input);
  }

  function IsNot(tag: string): string -> bool {
    (t: string) => t != tag
  }

  /** `categories.filter(c => c !== tag)`. */
  function RemoveTag(tags: seq<string>, tag: string): (r: seq<string>)
    ensures tag !in r
    ensures forall t | t in tags && t != tag :: t in r
    ensures forall t | t in r :: t in tags
    ensures Subseq(r, tags)
    ensures forall t :: multiset(r)[t] == if t != tag then multiset(tags)[t] else 0
    ensures tag !in tags ==> r == tags
    ensures NoDup(tags) ==> NoDup(r)
  {
    FilterKeepsAll(tags, IsNot(tag));
    FilterKeepsNoDup(tags, IsNot(tag));
    FilterCount(tags, IsNot(tag));
    Filter(tags, IsNot(tag))
  }

  /** Removing twice is removing once. */
  lemma RemoveTagTwice(tags: seq<string>, tag: string)
    ensures RemoveTag(RemoveTag(tags, tag), tag) == RemoveTag(tags, tag)
  {
    FilterIdempotent(tags, IsNot(tag));
  }

  /** Removing a label that was just added restores the registry. */
  lemma RemoveUndoesAdd(tags: seq<string>, input: string)
    requires input != "" && Upper(input) !in tags
    ensures RemoveTag(AddTag(tags, input).tags, Upper(input)) == tags
  {
    var t := Upper(input);
    assert AddTag(tags, input).tags == tags + [t];
    FilterAppend(tags, [t], IsNot(t));
    FilterKeepsAll(tags, IsNot(t));
    assert Filter([t], IsNot(t)) == [];
    assert tags + [] == tags;
  }

  /** `shuffleTags`: a reordering chosen by the random positions `picks`. */
  function ShuffleTags(tags: seq<string>, picks: seq<nat>): (r: seq<string>)
    ensures multiset(r) == multiset(tags)
    ensures |r| == |tags|
    ensures NoDup(tags) ==> NoDup(r)
    ensures AllUpper(tags) ==> AllUpper(r)
  {
    var r := Shuffle(tags, picks);
    assert |r| == |multiset(r)| == |multiset(tags)| == |tags|;
    assert forall t | t in r :: t in multiset(r);
    PermutationKeepsNoDup(tags, r);
    r
  }
}
