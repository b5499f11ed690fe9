/** The "Docker" short-circuit shared by the wrappers: `warnings and 'Docker' in
    warnings[0]`, where `in` on two strings is Python's substring test. */
module Warnings {

  const DockerMarker: string := "Docker"

  /** `sub` occurs in `s` starting at index `i`. */
  predicate OccursAt(sub: string, s: string, i: nat) {
    i + |sub| <= |s| && s[i..i + |sub|] == sub
  }

  /** Substring search from index `i` onward. */
  function ContainsFrom(s: string, sub: string, i: nat): (b: bool)
    decreases |s| - i
    ensures b <==> exists j :: i <= j && OccursAt(sub, s, j)
  {
    if i + |sub| > |s| then false
    else if OccursAt(sub, s, i) then true
    else ContainsFrom(s, sub, i + 1)
  }

  /** Python's `sub in s` for two strings. */
  function Contains(s: string, sub: string): (b: bool)
    ensures b <==> exists j :: 0 <= j && OccursAt(sub, s, j)
  {
    ContainsFrom(s, sub, 0)
  }

  /** The read's warnings say the feature is unsupported in this deployment: the
      list is non-empty and its FIRST entry contains the marker. */
  predicate DockerMarked(warnings: seq<string>) {
    |warnings| > 0 && Contains(warnings[0], DockerMarker)
  }

  /** The marker may stand anywhere inside the first warning. */
  lemma MarkerAnywhereInFirstWarning(pre: string, post: string, rest: seq<string>)
    ensures DockerMarked([pre + DockerMarker + post] + rest)
  {
    var w := pre + DockerMarker + post;
    assert w[|pre|..|pre| + |DockerMarker|] == DockerMarker;
    assert OccursAt(DockerMarker, w, |pre|);
  }

  /** A warning too short to hold the marker never triggers the short-circuit. */
  lemma ShortFirstWarningNotMarked(warnings: seq<string>)
    requires |warnings| > 0 && |warnings[0]| < |DockerMarker|
    ensures !DockerMarked(warnings)
  {
  }

  /** Only `warnings[0]` is inspected: the later warnings never matter. */
  lemma OnlyFirstWarningInspected(first: string, rest1: seq<string>, rest2: seq<string>)
    ensures DockerMarked([first] + rest1) == DockerMarked([first] + rest2)
  {
  }

  /** An empty list never short-circuits, and a marker in the second warning does not
      either when the first one lacks it. */
  lemma LaterMarkerIgnored(first: string, rest: seq<string>)
    requires !Contains(first, DockerMarker)
    ensures !DockerMarked([])
    ensures !DockerMarked([first, DockerMarker] + rest)
  {
  }
}
