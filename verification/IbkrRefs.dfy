/** Order references of the IBKR adapter: `<conId>-tp-...` and `<conId>-sl-...`
    name the protective orders of a position, `<parent>:tp` and `<parent>:sl`
    the legs of a bracket. */
module IbkrRefs {
  import opened Common

  const TP_INFIX := "-tp-"
  const SL_INFIX := "-sl-"

  predicate StartsWith(s: string, prefix: string) {
    |prefix| <= |s| && s[..|prefix|] == prefix
  }

  /** Where `str.partition` splits: the first occurrence. */
  function FirstIndex(s: string, infix: string): (r: Option<nat>)
    ensures r.Some? ==> r.value <= |s| && StartsWith(s[r.value..], infix)
    ensures r.Some? ==> forall k :: 0 <= k < r.value ==> !StartsWith(s[k..], infix)
    ensures r.None? ==> forall k :: 0 <= k <= |s| ==> !StartsWith(s[k..], infix)
  {
    if StartsWith(s, infix) then
      assert s[0..] == s;
      Some(0)
    else if s == "" then None
    else
      var rest := FirstIndex(s[1..], infix);
      assert forall k :: 0 <= k < |s| ==> s[1..][k..] == s[k + 1..];
      assert s[0..] == s;
      assert rest.None? ==> forall k :: 0 <= k <= |s| ==> k == 0 || s[k..] == s[1..][k - 1..];
      assert rest.Some? ==> forall k :: 0 <= k < rest.value + 1 ==> k == 0 || s[k..] == s[1..][k - 1..];
      if rest.None? then None else Some(rest.value + 1)
  }

  /** `str.isdigit` on the ASCII digits; the empty string has none. */
  predicate IsDigits(s: string) {
    s != "" && forall i :: 0 <= i < |s| ==> '0' <= s[i] <= '9'
  }

  /** The ten digits and no other character. */
  lemma DigitsAreTen(c: char)
    ensures IsDigits([c]) <==> c in {'0', '1', '2', '3', '4', '5', '6', '7', '8', '9'}
  {
    assert [c][0] == c;
    assert IsDigits([c]) <==> '0' <= c <= '9';
    if '0' <= c <= '9' { assert c as int - '0' as int in {0, 1, 2, 3, 4, 5, 6, 7, 8, 9}; }
  }

  predicate SplitsAtDigits(ref: string, infix: string) {
    var at := FirstIndex(ref, infix);
    at.Some? && IsDigits(ref[..at.value])
  }

  /** True for a protective order's reference. */
  predicate IsProtectionRef(ref: string) {
    SplitsAtDigits(ref, TP_INFIX) || SplitsAtDigits(ref, SL_INFIX)
  }

  function TpPrefix(positionId: string): string { positionId + TP_INFIX }

  function SlPrefix(positionId: string): string { positionId + SL_INFIX }

  lemma NoDashInDigits(p: string, infix: string, rest: string, k: nat)
    requires IsDigits(p) && |infix| > 0 && infix[0] == '-'
    requires k < |p|
    ensures !StartsWith((p + infix + rest)[k..], infix)
  {
    assert (p + infix + rest)[k..][0] == p[k];
  }

  lemma PrefixSplits(p: string, infix: string, rest: string)
    requires IsDigits(p) && |infix| > 0 && infix[0] == '-'
    ensures FirstIndex(p + infix + rest, infix) == Some(|p|)
    ensures (p + infix + rest)[..|p|] == p
  {
    var s := p + infix + rest;
    assert s[|p|..] == infix + rest;
    assert StartsWith(s[|p|..], infix);
    forall k | 0 <= k < |p| ensures !StartsWith(s[k..], infix) { NoDashInDigits(p, infix, rest, k); }
  }

  /** Every reference the adapter writes is recognised as a protective one. */
  lemma OwnRefsAreRecognised(positionId: string, suffix: string)
    requires IsDigits(positionId)
    ensures IsProtectionRef(TpPrefix(positionId) + suffix)
    ensures IsProtectionRef(SlPrefix(positionId) + suffix)
  {
    PrefixSplits(positionId, TP_INFIX, suffix);
    PrefixSplits(positionId, SL_INFIX, suffix);
  }

  lemma SamePrefix(s: string, p: string, q: string, i: string, j: string)
    requires IsDigits(p) && IsDigits(q) && |i| == 4 && |j| == 4 && i[0] == '-' && j[0] == '-'
    ensures StartsWith(s, p + i) && StartsWith(s, q + j) ==> p == q && i == j
  {
    var a, b := p + i, q + j;
    if StartsWith(s, a) && StartsWith(s, b) {
      assert forall k :: 0 <= k < |a| ==> s[k] == s[..|a|][k] == a[k];
      assert forall k :: 0 <= k < |b| ==> s[k] == s[..|b|][k] == b[k];
      assert a[|p|] == '-' && b[|q|] == '-';
      assert s[|p|] == '-' && s[|q|] == '-';
      assert forall k :: 0 <= k < |p| ==> s[k] == p[k];
      assert forall k :: 0 <= k < |q| ==> s[k] == q[k];
      assert |p| == |q| && a == b;
      assert p == a[..|p|] && q == b[..|q|];
      assert i == a[|p|..] && j == b[|q|..];
    }
  }

  /** Digits-only position ids make the four prefixes of two positions disjoint:
      no reference belongs to two positions, nor to two sides. */
  lemma PrefixesAreDisjoint(ref: string, p: string, q: string)
    requires IsDigits(p) && IsDigits(q)
    ensures StartsWith(ref, TpPrefix(p)) && StartsWith(ref, TpPrefix(q)) ==> p == q
    ensures StartsWith(ref, SlPrefix(p)) && StartsWith(ref, SlPrefix(q)) ==> p == q
    ensures !(StartsWith(ref, TpPrefix(p)) && StartsWith(ref, SlPrefix(q)))
  {
    SamePrefix(ref, p, q, TP_INFIX, TP_INFIX);
    SamePrefix(ref, p, q, SL_INFIX, SL_INFIX);
    SamePrefix(ref, p, q, TP_INFIX, SL_INFIX);
    assert TP_INFIX[1] != SL_INFIX[1];
  }

  // ---- Bracket legs ----

  /** Where `str.rpartition(":")` splits: the last colon. */
  function LastColon(s: string): (r: Option<nat>)
    ensures r.Some? ==> r.value < |s| && s[r.value] == ':' && forall k :: r.value < k < |s| ==> s[k] != ':'
    ensures r.None? ==> forall k :: 0 <= k < |s| ==> s[k] != ':'
  {
    if s == "" then None
    else if s[|s| - 1] == ':' then Some(|s| - 1)
    else LastColon(s[..|s| - 1])
  }

  /** The other leg of a bracket, when the reference names a leg. */
  function SiblingRef(ref: string): Option<string> {
    var at := LastColon(ref);
    if at.None? || at.value == 0 then None
    else
      var parent, leg := ref[..at.value], ref[at.value + 1..];
      if leg == "tp" then Some(parent + ":" + "sl")
      else if leg == "sl" then Some(parent + ":" + "tp")
      else None
  }

  lemma LegSplits(parent: string, leg: string)
    requires leg == "tp" || leg == "sl"
    ensures LastColon(parent + ":" + leg) == Some(|parent|)
  {
    var s := parent + ":" + leg;
    assert s[|parent|] == ':' && s[|parent| + 1] == leg[0] && s[|parent| + 2] == leg[1];
  }

  /** The sibling of a leg is a different order whose sibling is that leg. */
  lemma SiblingIsMutual(ref: string)
    requires SiblingRef(ref).Some?
    ensures SiblingRef(ref).value != ref
    ensures SiblingRef(SiblingRef(ref).value) == Some(ref)
  {
    var at := LastColon(ref).value;
    var parent, leg := ref[..at], ref[at + 1..];
    var other := if leg == "tp" then "sl" else "tp";
    assert ref == parent + ":" + leg;
    LegSplits(parent, other);
    var s := parent + ":" + other;
    assert SiblingRef(ref).value == s;
    assert LastColon(s) == Some(at);
    assert s[..|parent|] == parent && s[|parent| + 1..] == other;
    assert leg[0] != other[0] && ref[at + 1] == leg[0] && s[at + 1] == other[0];
  }

  /** `<parent>:tp` and `<parent>:sl` are each other's siblings, and no other
      reference has one. */
  lemma SiblingOfLeg(parent: string)
    requires parent != ""
    ensures SiblingRef(parent + ":tp") == Some(parent + ":sl") && SiblingRef(parent + ":sl") == Some(parent + ":tp")
  {
    LegSplits(parent, "tp");
    LegSplits(parent, "sl");
    var t, l := parent + ":" + "tp", parent + ":" + "sl";
    assert parent + ":tp" == t && parent + ":sl" == l;
    assert t[..|parent|] == parent && t[|parent| + 1..] == "tp";
    assert l[..|parent|] == parent && l[|parent| + 1..] == "sl";
  }

  lemma OnlyLegsHaveSiblings(ref: string) returns (parent: string)
    requires SiblingRef(ref).Some?
    ensures parent != "" && (ref == parent + ":tp" || ref == parent + ":sl")
  {
    var at := LastColon(ref).value;
    parent := ref[..at];
    assert ref == parent + ":" + ref[at + 1..];
    assert parent + ":tp" == parent + ":" + "tp" && parent + ":sl" == parent + ":" + "sl";
  }
}
