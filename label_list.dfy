/**
 * The search filter of the tech-stack picker: the entries of the tech-stack
 * catalogue whose name contains the typed keyword, ignoring ASCII case, in
 * catalogue order; an empty result shows the "no contents" placeholder.
 * The catalogue `TECH_STACKS` is a parameter.
 */
module LabelList {
  import opened JsStrings

  /** A catalogue entry; the filter reads only its name. */
  datatype TechStack = TechStack(name: string)

  /** `a` is `b` with some entries dropped and the rest in their order. */
  ghost predicate IsSubsequence<T>(a: seq<T>, b: seq<T>) {
    a == [] || (b != [] && ((a[0] == b[0] && IsSubsequence(a[1..], b[1..])) || IsSubsequence(a, b[1..])))
  }

  /** `te.name.toLowerCase().includes(lower)` */
  predicate Matches(te: TechStack, lower: string) {
    Includes(ToLower(te.name), lower)
  }

  /** `stacks.filter(te => te.name.toLowerCase().includes(lower))` */
  function Filter(stacks: seq<TechStack>, lower: string): (r: seq<TechStack>)
    ensures forall te :: te in r <==> te in stacks && Matches(te, lower)
    ensures IsSubsequence(r, stacks)
  {
    if stacks == [] then []
    else if Matches(stacks[0], lower) then [stacks[0]] + Filter(stacks[1..], lower)
    else Filter(stacks[1..], lower)
  }

  /** The filter works entry by entry: a catalogue's parts are filtered separately and joined. */
  lemma {:induction false} FilterAppend(a: seq<TechStack>, b: seq<TechStack>, lower: string)
    ensures Filter(a + b, lower) == Filter(a, lower) + Filter(b, lower)
  {
    if a == [] {
      assert a + b == b;
    } else {
      assert (a + b)[0] == a[0] && (a + b)[1..] == a[1..] + b;
      FilterAppend(a[1..], b, lower);
    }
  }

  /** One entry is kept, once, exactly when it matches. */
  lemma FilterOne(te: TechStack, lower: string)
    ensures Filter([te], lower) == if Matches(te, lower) then [te] else []
  {
    assert [te][1..] == [];
  }

  /** The memoised `filteredStacks` for a keyword. */
  function FilteredStacks(techStacks: seq<TechStack>, keyword: string): (r: seq<TechStack>)
    ensures forall te :: te in r <==> te in techStacks && Includes(ToLower(te.name), ToLower(keyword))
    ensures IsSubsequence(r, techStacks)
  {
    Filter(techStacks, ToLower(keyword))
  }

  /** Every string contains the empty string, so the empty keyword keeps the whole catalogue. */
  lemma {:induction false} EmptyKeywordKeepsAll(techStacks: seq<TechStack>)
    ensures FilteredStacks(techStacks, "") == techStacks
  {
    EmptyFilterKeepsAll(techStacks);
  }

  lemma {:induction false} EmptyFilterKeepsAll(stacks: seq<TechStack>)
    ensures Filter(stacks, "") == stacks
  {
    if stacks != [] {
      assert Matches(stacks[0], "");
      EmptyFilterKeepsAll(stacks[1..]);
      assert [stacks[0]] + stacks[1..] == stacks;
    }
  }

  /** `a` and `b` are the same up to ASCII case. */
  predicate SameIgnoringCase(a: string, b: string) {
    |a| == |b| && forall i :: 0 <= i < |a| ==> LowerChar(a[i]) == LowerChar(b[i])
  }

  /** Keywords that differ only in ASCII case filter alike. */
  lemma CaseOfKeywordIrrelevant(techStacks: seq<TechStack>, k1: string, k2: string)
    requires SameIgnoringCase(k1, k2)
    ensures FilteredStacks(techStacks, k1) == FilteredStacks(techStacks, k2)
  {
    assert ToLower(k1) == ToLower(k2);
  }

  /** What the component renders. */
  datatype LabelListView = NoContents | Labels(techNames: seq<string>)

  function Names(stacks: seq<TechStack>): (r: seq<string>)
    ensures |r| == |stacks|
    ensures forall i :: 0 <= i < |stacks| ==> r[i] == stacks[i].name
  {
    seq(|stacks|, i requires 0 <= i < |stacks| => stacks[i].name)
  }

  /** The placeholder exactly when nothing matches, otherwise one label per kept entry. */
  function Render(techStacks: seq<TechStack>, keyword: string): (r: LabelListView)
    ensures r.NoContents? <==> forall te :: te in techStacks ==> !Includes(ToLower(te.name), ToLower(keyword))
    ensures r.Labels? ==> r.techNames == Names(FilteredStacks(techStacks, keyword)) && r.techNames != []
  {
    var filtered := FilteredStacks(techStacks, keyword);
    if |filtered| == 0 then NoContents
    else Labels(Names(filtered))
  }
}
