/**
 * The major-bump decision (a plain substring test for `#major`) and the
 * table that turns the highest known pair and that decision into the next pair.
 */
module Bump {
  import opened Text
  import opened Versions
  import opened Scanning

  const Marker := "#major"

  /** `messages.includes("#major")`: unanchored, so `#majority` triggers a bump as well. */
  function HasMarker(messages: string): bool
  {
    Contains(messages, Marker)
  }

  /**
   * The bump decision: with no tag found the HEAD message is trimmed first,
   * otherwise the range output is searched as it is.
   */
  function IsMajorBump(st: VersionState, messages: string): bool
  {
    if !st.found then HasMarker(Trim(messages)) else HasMarker(messages)
  }

  /** Trimming the HEAD message makes no difference: the decision is whether the text holds the marker. */
  lemma IsMajorBumpIff(st: VersionState, messages: string)
    ensures IsMajorBump(st, messages) <==> exists i :: OccursAt(messages, Marker, i)
  {
    TrimKeepsContains(messages, Marker);
    ContainsIff(messages, Marker);
  }

  /** The marker matches inside a longer word. */
  lemma MarkerIsUnanchored()
    ensures HasMarker("fix: #majority vote")
  {
    assert OccursAt("fix: #majority vote", Marker, 5);
    ContainsIff("fix: #majority vote", Marker);
  }

  /**
   * The next pair: `(0, 1)` or `(1, 0)` when no tag was found, otherwise
   * the minor raised by one, or the major raised by one and the minor reset.
   */
  function NextVersion(st: VersionState, isMajorBump: bool): (r: Version)
    ensures r != Version(0, 0)
    ensures isMajorBump <==> r.minor == 0
    ensures st.found ==> Greater(r, st.latest)
    ensures st.found ==> r.major == st.latest.major + (if isMajorBump then 1 else 0)
    ensures st.found ==> forall w :: Greater(w, st.latest) && (isMajorBump ==> w.major > st.latest.major) ==> AtMost(r, w)
    ensures !st.found ==> r.major + r.minor == 1
  {
    if !st.found then
      if isMajorBump then Version(1, 0) else Version(0, 1)
    else if isMajorBump then
      Version(st.latest.major + 1, 0)
    else
      Version(st.latest.major, st.latest.minor + 1)
  }

  /** The next pair is above every matching tag, so its tag name is none of the existing tags. */
  lemma NextAboveAllTags(tags: seq<string>, isMajorBump: bool)
    ensures forall i :: 0 <= i < |tags| && ParseTag(tags[i]).Some? ==>
              Greater(NextVersion(Scan(tags), isMajorBump), ParseTag(tags[i]).value)
    ensures FormatTag(NextVersion(Scan(tags), isMajorBump)) !in tags
  {
    var st := Scan(tags);
    var v := NextVersion(st, isMajorBump);
    ScanFound(tags);
    ScanUpperBound(tags);
    ParseFormat(v);
  }

  /** The table's four corners. */
  lemma NextVersionTable()
    ensures NextVersion(Initial, false) == Version(0, 1)
    ensures NextVersion(Initial, true) == Version(1, 0)
    ensures NextVersion(VersionState(Version(3, 7), true), false) == Version(3, 8)
    ensures NextVersion(VersionState(Version(3, 7), true), true) == Version(4, 0)
  {
  }
}
