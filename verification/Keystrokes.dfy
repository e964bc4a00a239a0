/**
 Text as UTF-16 code units, the end-anchored edits the keyboard layer sends, the
 minimal-diff sender of kbd/ime-input.js and the deletion count of kbd/keys.js.
 */
module Keystrokes {
  import opened Prelude

  type Unit = u: int | 0 <= u < 0x10000
  type Text = seq<Unit>

  predicate IsHighSurrogate(u: Unit) {
    0xd800 <= u <= 0xdbff
  }

  predicate IsLowSurrogate(u: Unit) {
    0xdc00 <= u <= 0xdfff
  }

  /** Every surrogate is half of a pair. */
  predicate WellFormed(t: Text) {
    && (forall i :: 0 <= i < |t| && IsHighSurrogate(t[i]) ==> i + 1 < |t| && IsLowSurrogate(t[i + 1]))
    && (forall i :: 0 <= i < |t| && IsLowSurrogate(t[i]) ==> i > 0 && IsHighSurrogate(t[i - 1]))
  }

  /** What `n` Backspaces leave of a text edited at its end. */
  function Erase(t: Text, n: nat): (r: Text)
    ensures r <= t
  {
    if n <= |t| then t[..|t| - n] else []
  }

  lemma EraseTail(a: Text, b: Text)
    ensures Erase(a + b, |b|) == a
  {
  }

  // ------------------------------------------------------------------ minimal diff

  predicate CommonPrefix(a: Text, b: Text, p: nat) {
    p <= |a| && p <= |b| && a[..p] == b[..p]
  }

  /** The longest common prefix. */
  function Agreement(a: Text, b: Text): (p: nat)
    ensures CommonPrefix(a, b, p)
    ensures p < |a| && p < |b| ==> a[p] != b[p]
  {
    if a == [] || b == [] || a[0] != b[0] then 0
    else
      var q := Agreement(a[1..], b[1..]);
      assert a[..q + 1] == [a[0]] + a[1..][..q] && b[..q + 1] == [b[0]] + b[1..][..q];
      q + 1
  }

  predicate StepsBack(a: Text, p: nat) {
    0 < p < |a| && IsHighSurrogate(a[p - 1]) && IsLowSurrogate(a[p])
  }

  /** Where the edit starts: after the common prefix, unless that would split a pair of the old text. */
  function Cut(a: Text, b: Text): (p: nat)
    ensures CommonPrefix(a, b, p)
  {
    var p := Agreement(a, b);
    if StepsBack(a, p) then p - 1 else p
  }

  lemma AgreementIsLongest(a: Text, b: Text, p: nat)
    requires CommonPrefix(a, b, p)
    ensures p <= Agreement(a, b)
  {
    assert forall i | 0 <= i < p :: a[i] == a[..p][i] == b[..p][i] == b[i];
  }

  lemma AgreementIsUnique(a: Text, b: Text, p: nat)
    requires CommonPrefix(a, b, p) && (p < |a| && p < |b| ==> a[p] != b[p])
    ensures p == Agreement(a, b)
  {
    AgreementIsLongest(a, b, p);
    var q := Agreement(a, b);
    assert forall i | 0 <= i < q :: a[i] == a[..q][i] == b[..q][i] == b[i];
  }

  /** The prefix scan of `diffAndSend` and its surrogate step back. */
  method FindCut(oldV: Text, newV: Text) returns (p: nat)
    ensures p == Cut(oldV, newV)
  {
    p := 0;
    var maxP := Min(|oldV|, |newV|);
    while p < maxP && oldV[p] == newV[p]
      invariant p <= maxP && CommonPrefix(oldV, newV, p)
    {
      assert oldV[..p + 1] == oldV[..p] + [oldV[p]] && newV[..p + 1] == newV[..p] + [newV[p]];
      p := p + 1;
    }
    AgreementIsUnique(oldV, newV, p);
    if p > 0 && p < |oldV| && IsHighSurrogate(oldV[p - 1]) && IsLowSurrogate(oldV[p]) {
      p := p - 1;
    }
  }

  /** One run of Backspaces and one insertion turn any old text behind any base into any new text. */
  lemma DiffTransforms(base: Text, a: Text, b: Text)
    ensures Erase(base + a, |a| - Cut(a, b)) + b[Cut(a, b)..] == base + b
  {
    var p := Cut(a, b);
    assert base + a == (base + a[..p]) + a[p..];
    EraseTail(base + a[..p], a[p..]);
    assert b == b[..p] + b[p..];
  }

  /**
   No other end-anchored edit, erasing `n` units and typing `typed`, erases or
   types less than the common prefix allows; the surrogate step costs one unit.
   */
  lemma DiffIsMinimal(a: Text, b: Text, n: nat, typed: Text)
    requires n <= |a| && Erase(a, n) + typed == b
    ensures n >= |a| - Agreement(a, b) && |typed| >= |b| - Agreement(a, b)
    ensures var extra := if StepsBack(a, Agreement(a, b)) then 1 else 0;
            |a| - Cut(a, b) <= n + extra && |b| - Cut(a, b) <= |typed| + extra
  {
    assert b[..|a| - n] == a[..|a| - n];
    AgreementIsLongest(a, b, |a| - n);
  }

  /** Neither the erased nor the typed tail starts or ends inside a surrogate pair. */
  lemma DiffKeepsPairs(a: Text, b: Text)
    requires WellFormed(a) && WellFormed(b)
    ensures WellFormed(a[Cut(a, b)..]) && WellFormed(b[Cut(a, b)..]) && WellFormed(a[..Cut(a, b)])
  {
    var q, p := Agreement(a, b), Cut(a, b);
    assert p > 0 && IsHighSurrogate(a[p - 1]) ==> StepsBack(a, p);
    assert p > 0 ==> a[..p][p - 1] == b[..p][p - 1];
    WellFormedSuffix(a, p);
    WellFormedSuffix(b, p);
  }

  lemma WellFormedSuffix(t: Text, p: nat)
    requires WellFormed(t) && p <= |t| && (p > 0 ==> !IsHighSurrogate(t[p - 1]))
    ensures WellFormed(t[p..]) && WellFormed(t[..p])
  {
  }

  // ---------------------------------------------------------------- deletion count

  predicate IsPair(t: Text, i: nat)
    requires i < |t|
  {
    i + 1 < |t| && IsHighSurrogate(t[i]) && IsLowSurrogate(t[i + 1])
  }

  function CodePoint(high: Unit, low: Unit): int {
    0x10000 + (high - 0xd800) * 0x400 + (low - 0xdc00)
  }

  /** A pictographic scalar starts here: three ranges, one of them beyond the basic plane. */
  predicate EmojiAt(t: Text, i: nat)
    requires i < |t|
  {
    || 0x2600 <= t[i] <= 0x27bf || 0x2b00 <= t[i] <= 0x2bff
    || (IsPair(t, i) && 0x1f000 <= CodePoint(t[i], t[i + 1]) <= 0x1ffff)
  }

  predicate HasEmojiScalar(t: Text) {
    exists i :: 0 <= i < |t| && EmojiAt(t, i)
  }

  /** The Unicode scalars of a text; an unpaired surrogate stands for itself. */
  function Scalars(t: Text): seq<int> {
    if t == [] then []
    else if IsPair(t, 0) then [CodePoint(t[0], t[1])] + Scalars(t[2..])
    else [t[0]] + Scalars(t[1..])
  }

  /** The class of the regular expression, regional indicators included. */
  predicate IsPictographic(scalar: int) {
    || 0x1f000 <= scalar <= 0x1ffff || 0x1f1e6 <= scalar <= 0x1f1ff
    || 0x2600 <= scalar <= 0x27bf || 0x2b00 <= scalar <= 0x2bff
  }

  ghost predicate AnyPictographic(scalars: seq<int>) {
    exists k :: 0 <= k < |scalars| && IsPictographic(scalars[k])
  }

  lemma AnyPictographicFirst(scalar: int, rest: seq<int>)
    ensures AnyPictographic([scalar] + rest) <==> IsPictographic(scalar) || AnyPictographic(rest)
  {
    var all := [scalar] + rest;
    assert all[0] == scalar && forall k :: 0 <= k < |rest| ==> all[k + 1] == rest[k];
    if AnyPictographic(all) {
      var k :| 0 <= k < |all| && IsPictographic(all[k]);
      assert k > 0 ==> IsPictographic(rest[k - 1]);
    }
  }

  lemma EmojiTail(t: Text, n: nat)
    requires n <= |t|
    ensures HasEmojiScalar(t) <==> (exists i :: 0 <= i < n && EmojiAt(t, i)) || HasEmojiScalar(t[n..])
  {
    var tail := t[n..];
    forall i | 0 <= i < |tail| ensures EmojiAt(tail, i) <==> EmojiAt(t, i + n) {
    }
    if HasEmojiScalar(t) {
      var i :| 0 <= i < |t| && EmojiAt(t, i);
      assert i >= n ==> EmojiAt(tail, i - n);
    }
    if HasEmojiScalar(tail) {
      var i :| 0 <= i < |tail| && EmojiAt(tail, i);
      assert EmojiAt(t, i + n);
    }
  }

  /** The test on code units is the one on scalars. */
  lemma {:induction false} HasEmojiScalarIff(t: Text)
    ensures HasEmojiScalar(t) <==> AnyPictographic(Scalars(t))
    decreases |t|
  {
    if t != [] {
      var n := if IsPair(t, 0) then 2 else 1;
      EmojiTail(t, n);
      HasEmojiScalarIff(t[n..]);
      AnyPictographicFirst(if n == 2 then CodePoint(t[0], t[1]) else t[0], Scalars(t[n..]));
      assert EmojiAt(t, 0) <==> IsPictographic(if n == 2 then CodePoint(t[0], t[1]) else t[0]);
    }
  }

  /** A pair of surrogates stands for the code point it encodes. */
  lemma PairEncodes(scalar: int)
    requires 0x10000 <= scalar <= 0x10ffff
    ensures var high, low := 0xd800 + (scalar - 0x10000) / 0x400, 0xdc00 + (scalar - 0x10000) % 0x400;
            IsHighSurrogate(high) && IsLowSurrogate(low) && CodePoint(high, low) == scalar
  {
  }

  /** What the code counts for one grapheme cluster. */
  function ClusterCount(cluster: Text): nat {
    if HasEmojiScalar(cluster) then 1 else |cluster|
  }

  function CountAll(clusters: seq<Text>): nat {
    if clusters == [] then 0 else ClusterCount(clusters[0]) + CountAll(clusters[1..])
  }

  /** Code points of a well-formed text: every unit but the second half of a pair. */
  function CodePoints(t: Text): (n: nat)
    ensures n <= |t|
    ensures n == |t| <==> forall i :: 0 <= i < |t| ==> !IsLowSurrogate(t[i])
  {
    if t == [] then 0
    else
      assert t == [t[0]] + t[1..];
      (if IsLowSurrogate(t[0]) then 0 else 1) + CodePoints(t[1..])
  }

  /** How many Backspaces the remote browser takes: one for an emoji cluster, one per code point otherwise. */
  function PressesNeeded(clusters: seq<Text>): nat {
    if clusters == [] then 0
    else (if HasEmojiScalar(clusters[0]) then 1 else CodePoints(clusters[0])) + PressesNeeded(clusters[1..])
  }

  predicate AstralOutsideEmoji(clusters: seq<Text>) {
    exists k :: 0 <= k < |clusters| && !HasEmojiScalar(clusters[k])
                && exists i :: 0 <= i < |clusters[k]| && IsLowSurrogate(clusters[k][i])
  }

  /**
   Counting code units deletes exactly what was deleted if and only if no cluster
   outside the emoji ranges needs a surrogate pair; otherwise it deletes too much.
   */
  lemma {:induction false} CountIsRightIff(clusters: seq<Text>)
    ensures CountAll(clusters) >= PressesNeeded(clusters)
    ensures CountFor(Join(clusters), Some(clusters)) == PressesNeeded(clusters) <==> !AstralOutsideEmoji(clusters)
    ensures CountFor(Join(clusters), Some(clusters)) == CountAll(clusters)
  {
    if clusters != [] {
      var rest := clusters[1..];
      CountIsRightIff(rest);
      assert clusters == [clusters[0]] + rest;
      assert forall k :: 0 <= k < |rest| ==> rest[k] == clusters[k + 1];
    }
  }

  /** One ideograph outside the basic plane, U+20000: two Backspaces are counted where one is needed. */
  lemma AstralIdeographOverDeletes()
    ensures var clusters: seq<Text> := [[0xd840, 0xdc00]];
            CountAll(clusters) == 2 && PressesNeeded(clusters) == 1
  {
    var cluster: Text := [0xd840, 0xdc00];
    assert CodePoint(0xd840, 0xdc00) == 0x20000;
    assert !HasEmojiScalar(cluster);
    assert cluster[1..] == [0xdc00];
    assert CodePoints(cluster) == 1 + CodePoints([0xdc00]);
  }

  function Join(clusters: seq<Text>): Text {
    if clusters == [] then [] else clusters[0] + Join(clusters[1..])
  }

  /** The deleted text and, where the platform has a segmenter, its clusters. */
  function CountFor(deleted: Text, clusters: Option<seq<Text>>): nat {
    if clusters.Some? then CountAll(clusters.value) else |deleted|
  }

  /** One Backspace per code unit deletes the cluster and no more. */
  predicate OneUnitEach(cluster: Text) {
    if HasEmojiScalar(cluster) then |cluster| == 1 else forall i :: 0 <= i < |cluster| ==> !IsLowSurrogate(cluster[i])
  }

  /**
   Without a segmenter every code unit is counted: never too little, and right if and
   only if every emoji cluster is a single unit and no other needs a surrogate pair.
   */
  lemma {:induction false} FallbackIsRightIff(clusters: seq<Text>)
    ensures |Join(clusters)| >= PressesNeeded(clusters)
    ensures CountFor(Join(clusters), None) == PressesNeeded(clusters) <==>
            forall k :: 0 <= k < |clusters| ==> OneUnitEach(clusters[k])
  {
    if clusters != [] {
      var rest := clusters[1..];
      FallbackIsRightIff(rest);
      assert clusters == [clusters[0]] + rest;
      assert forall k :: 0 <= k < |rest| ==> rest[k] == clusters[k + 1];
    }
  }

  /** One emoji, U+1F600: without a segmenter its two code units are counted. */
  lemma FallbackOverDeletesEmoji()
    ensures var clusters: seq<Text> := [[0xd83d, 0xde00]];
            CountFor(Join(clusters), None) == 2 && PressesNeeded(clusters) == 1
  {
    var cluster: Text := [0xd83d, 0xde00];
    assert CodePoint(0xd83d, 0xde00) == 0x1f600;
    assert IsPair(cluster, 0);
    assert EmojiAt(cluster, 0);
    assert Join([cluster]) == cluster + [];
  }

  /** Both branches of `backspaceCountFor` and its loop over the segmenter's clusters. */
  method BackspaceCountFor(deleted: Text, clusters: Option<seq<Text>>) returns (n: nat)
    requires clusters.Some? ==> Join(clusters.value) == deleted && [] !in clusters.value
    ensures n == CountFor(deleted, clusters)
  {
    if deleted == [] {
      if clusters.Some? { NoClustersOfNothing(clusters.value); }
      return 0;
    }
    if clusters.None? {
      return |deleted|;
    }
    var segments := clusters.value;
    n := 0;
    assert segments[0..] == segments;
    for i := 0 to |segments|
      invariant n + CountAll(segments[i..]) == CountAll(segments)
    {
      assert segments[i..][1..] == segments[i + 1..];
      n := n + if HasEmojiScalar(segments[i]) then 1 else |segments[i]|;
    }
  }

  lemma NoClustersOfNothing(clusters: seq<Text>)
    requires Join(clusters) == [] && [] !in clusters
    ensures CountAll(clusters) == 0
  {
  }
}
