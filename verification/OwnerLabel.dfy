/** GetOwnerLabel: a resource name cut into label values of at most 63 characters. */
module OwnerLabel {
  import opened Text

  type Labels = map<string, string>

  const LABEL_MANAGED_BY := "kubeslice-controller-resource-name"
  const LABEL_RESOURCE_OWNER := "kubeslice-resource-owner"
  const LABEL_VALUE_RESOURCE_OWNER := "kubeslice-controller"
  const MAX_LABEL: nat := 63

  /** Key of chunk i. */
  function LabelKey(i: nat): string {
    if i == 0 then LABEL_MANAGED_BY else LABEL_MANAGED_BY + "-" + Decimal(i)
  }

  function Chunks(s: string): (n: nat)
    ensures n > 0
  {
    if |s| <= MAX_LABEL then 1 else |s| / MAX_LABEL + 1
  }

  function Chunk(s: string, i: nat): (c: string)
    requires i < Chunks(s)
    ensures |c| <= MAX_LABEL
    ensures i < Chunks(s) - 1 ==> |c| == MAX_LABEL
    ensures i == Chunks(s) - 1 && i > 0 ==> |c| < MAX_LABEL
  {
    s[MAX_LABEL * i..if MAX_LABEL * (i + 1) < |s| then MAX_LABEL * (i + 1) else |s|]
  }

  lemma KeysDiffer(i: nat, j: nat)
    requires i != j
    ensures LabelKey(i) != LabelKey(j) && LabelKey(i) != LABEL_RESOURCE_OWNER
  {
    DecimalRoundTrip(i);
    DecimalRoundTrip(j);
    assert LABEL_RESOURCE_OWNER[10] == 'r' && LABEL_MANAGED_BY[10] == 'c' == LabelKey(i)[10];
    if i > 0 && j > 0 {
      var n := |LABEL_MANAGED_BY + "-"|;
      assert LabelKey(i)[n..] == Decimal(i) && LabelKey(j)[n..] == Decimal(j);
    }
  }

  /** The labels with the first n chunks. */
  function LabelsUpTo(s: string, n: nat): Labels
    requires n <= Chunks(s)
  {
    if n == 0 then map[LABEL_RESOURCE_OWNER := LABEL_VALUE_RESOURCE_OWNER]
    else LabelsUpTo(s, n - 1)[LabelKey(n - 1) := Chunk(s, n - 1)]
  }

  function OwnerLabels(s: string): Labels {
    LabelsUpTo(s, Chunks(s))
  }

  method GetOwnerLabel(s: string) returns (tags: Labels)
    ensures tags == OwnerLabels(s)
  {
    tags := map[LABEL_RESOURCE_OWNER := LABEL_VALUE_RESOURCE_OWNER];
    var remaining := |s|;
    var i, j := 0, 0;
    if remaining > 63 {
      var noOfLabels := remaining / 63;
      tags := tags[LABEL_MANAGED_BY := s[j..63]];
      assert tags == LabelsUpTo(s, 1) by { assert LabelsUpTo(s, 0) == map[LABEL_RESOURCE_OWNER := LABEL_VALUE_RESOURCE_OWNER]; }
      j := 63;
      remaining := remaining - 63;
      i := 1;
      while i <= noOfLabels && remaining >= 63
        invariant 1 <= i <= noOfLabels == |s| / 63
        invariant j == 63 * i && remaining == |s| - 63 * i >= 0
        invariant tags == LabelsUpTo(s, i)
      {
        tags := tags[LABEL_MANAGED_BY + "-" + Itoa(i) := s[j..63 * (i + 1)]];
        remaining := remaining - 63;
        j := 63 * (i + 1);
        i := i + 1;
      }
      assert i == noOfLabels;
      assert Chunks(s) == i + 1 && s[j..] == Chunk(s, i);
      tags := tags[LABEL_MANAGED_BY + "-" + Itoa(i) := s[j..]];
      assert tags == LabelsUpTo(s, i + 1);
    } else {
      assert Chunks(s) == 1 && s == Chunk(s, 0);
      tags := tags[LABEL_MANAGED_BY := s];
      assert LabelsUpTo(s, 1) == LabelsUpTo(s, 0)[LabelKey(0) := Chunk(s, 0)];
    }
  }

  function Concat(s: string, n: nat): string
    requires n <= Chunks(s)
  {
    if n == 0 then "" else Concat(s, n - 1) + Chunk(s, n - 1)
  }

  /** The chunks in index order spell the name. */
  lemma {:induction false} ChunksSpell(s: string, n: nat)
    requires n <= Chunks(s)
    ensures Concat(s, n) == s[..if MAX_LABEL * n < |s| then MAX_LABEL * n else |s|]
    ensures n == Chunks(s) ==> Concat(s, n) == s
  {
    if n > 0 { ChunksSpell(s, n - 1); }
  }

  /** The key of one of the first n chunks. */
  ghost predicate IsChunkKey(k: string, n: nat) {
    exists i: nat :: i < n && k == LabelKey(i)
  }

  lemma {:induction false} FixedLabel(s: string, n: nat)
    requires n <= Chunks(s)
    ensures LABEL_RESOURCE_OWNER in LabelsUpTo(s, n)
    ensures LabelsUpTo(s, n)[LABEL_RESOURCE_OWNER] == LABEL_VALUE_RESOURCE_OWNER
  {
    if n > 0 {
      FixedLabel(s, n - 1);
      KeysDiffer(n - 1, n);
    }
  }

  lemma {:induction false} ChunkLabel(s: string, n: nat, i: nat)
    requires n <= Chunks(s)
    ensures LabelKey(i) in LabelsUpTo(s, n) <==> i < n
    ensures i < n ==> LabelsUpTo(s, n)[LabelKey(i)] == Chunk(s, i)
    decreases n
  {
    KeysDiffer(i, i + 1);
    if n > 0 {
      ChunkLabel(s, n - 1, i);
      if i != n - 1 { KeysDiffer(i, n - 1); }
    }
  }

  lemma {:induction false} OnlyChunkLabels(s: string, n: nat, k: string)
    requires n <= Chunks(s) && k in LabelsUpTo(s, n)
    ensures k == LABEL_RESOURCE_OWNER || IsChunkKey(k, n)
  {
    if n > 0 && k != LabelKey(n - 1) { OnlyChunkLabels(s, n - 1, k); }
  }

  /** The labels are the fixed one and exactly the chunks under their keys. */
  lemma LabelsAreChunks(s: string, n: nat)
    requires n <= Chunks(s)
    ensures LABEL_RESOURCE_OWNER in LabelsUpTo(s, n)
    ensures LabelsUpTo(s, n)[LABEL_RESOURCE_OWNER] == LABEL_VALUE_RESOURCE_OWNER
    ensures forall i: nat :: LabelKey(i) in LabelsUpTo(s, n) <==> i < n
    ensures forall i: nat :: i < n ==> LabelsUpTo(s, n)[LabelKey(i)] == Chunk(s, i)
    ensures forall k :: k in LabelsUpTo(s, n) ==> k == LABEL_RESOURCE_OWNER || IsChunkKey(k, n)
  {
    FixedLabel(s, n);
    forall i: nat
      ensures LabelKey(i) in LabelsUpTo(s, n) <==> i < n
      ensures i < n ==> LabelsUpTo(s, n)[LabelKey(i)] == Chunk(s, i)
    {
      ChunkLabel(s, n, i);
    }
    forall k | k in LabelsUpTo(s, n) ensures k == LABEL_RESOURCE_OWNER || IsChunkKey(k, n) { OnlyChunkLabels(s, n, k); }
  }

  /** The same in texts: label i, without a number for the first, holds characters 63*i to 63*i+62; one that begins at the
      end of a longer name is there too, empty. */
  lemma LabelsByText(s: string, i: nat)
    ensures "kubeslice-resource-owner" in OwnerLabels(s)
    ensures OwnerLabels(s)["kubeslice-resource-owner"] == "kubeslice-controller"
    ensures var k := if i == 0 then "kubeslice-controller-resource-name" else "kubeslice-controller-resource-name-" + Decimal(i);
      && (k in OwnerLabels(s) <==> i == 0 || (|s| > 63 && 63 * i <= |s|))
      && (k in OwnerLabels(s) ==> OwnerLabels(s)[k] == s[63 * i..if 63 * i + 63 < |s| then 63 * i + 63 else |s|])
  {
    FixedLabel(s, Chunks(s));
    ChunkLabel(s, Chunks(s), i);
    assert LABEL_MANAGED_BY + "-" == "kubeslice-controller-resource-name-";
  }

  /** client.MatchingLabels: every selector entry is present. */
  predicate Selects(selector: Labels, labels: Labels) {
    forall k :: k in selector ==> k in labels && labels[k] == selector[k]
  }

  /** Selecting means agreeing on every chunk of the selecting name. */
  lemma SelectsByChunks(s: string, t: string)
    ensures Selects(OwnerLabels(s), OwnerLabels(t)) <==>
            Chunks(s) <= Chunks(t) && forall i: nat :: i < Chunks(s) ==> Chunk(s, i) == Chunk(t, i)
  {
    LabelsAreChunks(s, Chunks(s));
    LabelsAreChunks(t, Chunks(t));
    var a, b := OwnerLabels(s), OwnerLabels(t);
    if Selects(a, b) {
      assert LabelKey(Chunks(s) - 1) in a && LabelKey(Chunks(s) - 1) in b;
      forall i: nat | i < Chunks(s) ensures Chunk(s, i) == Chunk(t, i) {
        assert LabelKey(i) in a;
      }
    }
  }

  lemma {:induction false} SameChunksSamePrefix(s: string, t: string, n: nat)
    requires n <= Chunks(s) && n <= Chunks(t)
    requires forall i: nat :: i < n ==> Chunk(s, i) == Chunk(t, i)
    ensures Concat(s, n) == Concat(t, n)
  {
    if n > 0 { SameChunksSamePrefix(s, t, n - 1); }
  }

  /** The selector of s picks objects of t exactly when s = t, or s has 63 characters and begins t. */
  lemma SelectorIsExact(s: string, t: string)
    ensures Selects(OwnerLabels(s), OwnerLabels(t)) <==> s == t || (|s| == MAX_LABEL && s < t)
  {
    SelectsByChunks(s, t);
    var n := Chunks(s);
    if |s| == MAX_LABEL && s < t {
      assert Chunk(s, 0) == s == t[..63] == Chunk(t, 0);
    }
    if Selects(OwnerLabels(s), OwnerLabels(t)) {
      SameChunksSamePrefix(s, t, n);
      ChunksSpell(s, n);
      ChunksSpell(t, n);
      assert Chunk(s, n - 1) == Chunk(t, n - 1);
    }
  }
}
