/** Go slices over a shared array, shrunk in place while being ranged over. */
module GoSlices {
  import opened Sequences

  /** A slice header at offset 0. */
  datatype GoSlice = GoSlice(arr: array<string>, len: nat)

  ghost predicate InBounds(s: GoSlice) {
    s.len <= s.arr.Length
  }

  function Items(s: GoSlice): seq<string>
    requires InBounds(s)
    reads s.arr
  {
    s.arr[..s.len]
  }

  /** The whole array after the element at i of the first n was shifted out: position n-1 keeps its old value. */
  function Shifted(full: seq<string>, n: nat, i: nat): (r: seq<string>)
    requires i < n <= |full|
    ensures |r| == |full| && r[..n - 1] == full[..i] + full[i + 1..n] && r[n - 1..] == full[n - 1..]
  {
    full[..i] + full[i + 1..n] + full[n - 1..]
  }

  /** RemoveElementFromArray: append(slice[:i], slice[i+1:]...) at the first match. */
  method RemoveElement(s: GoSlice, x: string) returns (r: GoSlice, ghost at: nat)
    requires InBounds(s)
    modifies s.arr
    ensures r.arr == s.arr && r.len <= s.len
    ensures x !in old(Items(s)) ==> r == s && s.arr[..] == old(s.arr[..])
    ensures x in old(Items(s)) ==>
      && at < s.len && old(s.arr[at]) == x && x !in old(s.arr[..at])
      && r.len == s.len - 1 && s.arr[..] == Shifted(old(s.arr[..]), s.len, at)
  {
    ghost var was := s.arr[..];
    var i := 0;
    while i < s.len
      invariant i <= s.len && s.arr[..] == was && x !in was[..i]
    {
      if s.arr[i] == x {
        at := i;
        ShiftDown(s.arr, i, s.len);
        return GoSlice(s.arr, s.len - 1), i;
      }
      i := i + 1;
    }
    r, at := s, 0;
  }

  /** The copy that append makes: elements i+1..n-1 move one place down. */
  method ShiftDown(arr: array<string>, i: nat, n: nat)
    requires i < n <= arr.Length
    modifies arr
    ensures arr[..] == Shifted(old(arr[..]), n, i)
  {
    ghost var was := arr[..];
    var j := i;
    while j + 1 < n
      invariant i <= j < n
      invariant forall k :: 0 <= k < i ==> arr[k] == was[k]
      invariant forall k :: i < k <= j ==> arr[k - 1] == was[k]
      invariant forall k :: j <= k < arr.Length ==> arr[k] == was[k]
    {
      arr[j] := arr[j + 1];
      j := j + 1;
    }
    forall k | 0 <= k < arr.Length ensures arr[k] == Shifted(was, n, i)[k] {
      if i <= k < n - 1 { assert arr[(k + 1) - 1] == was[k + 1]; }
    }
  }

  // ----- Sweeping a set out of a list while ranging over it -----

  /** What is left: after a removal the next cluster is skipped, except that the very last one is met again. */
  function Swept(x: seq<string>, drop: set<string>): seq<string> {
    if x == [] then []
    else if x[0] !in drop then [x[0]] + Swept(x[1..], drop)
    else if |x| == 1 || (|x| == 2 && x[1] in drop) then []
    else [x[1]] + Swept(x[2..], drop)
  }

  function Filter(x: seq<string>, drop: set<string>): seq<string> {
    if x == [] then [] else (if x[0] in drop then [] else [x[0]]) + Filter(x[1..], drop)
  }

  /** s is t with some elements left out. */
  predicate Subsequence(s: seq<string>, t: seq<string>) {
    if t == [] then s == []
    else Subsequence(s, t[1..]) || (s != [] && s[0] == t[0] && Subsequence(s[1..], t[1..]))
  }

  /** No two neighbours, apart from the last two, are both to go. */
  predicate NoInnerPair(x: seq<string>, drop: set<string>) {
    forall i :: 0 <= i && i + 2 < |x| ==> !(x[i] in drop && x[i + 1] in drop)
  }

  lemma NothingIsSubsequence(t: seq<string>)
    ensures Subsequence([], t)
  {
  }

  /** Sweeping keeps order and never loses a cluster outside the set. */
  lemma {:induction false} SweptKeeps(x: seq<string>, drop: set<string>)
    ensures Filter(Swept(x, drop), drop) == Filter(x, drop)
    ensures Subsequence(Swept(x, drop), x)
    decreases |x|
  {
    var r := Swept(x, drop);
    if x == [] {
    } else if x[0] !in drop {
      SweptKeeps(x[1..], drop);
      assert r[1..] == Swept(x[1..], drop);
    } else if |x| == 1 || (|x| == 2 && x[1] in drop) {
      NothingIsSubsequence(x);
      if |x| == 2 { assert x[1..][1..] == []; }
    } else {
      SweptKeeps(x[2..], drop);
      assert r[1..] == Swept(x[2..], drop);
      assert x[1..][1..] == x[2..];
      assert Subsequence(r, x[1..]);
    }
  }

  lemma InnerPairStep(x: seq<string>, drop: set<string>)
    requires |x| > 0
    ensures NoInnerPair(x, drop) <==>
            (|x| > 2 ==> !(x[0] in drop && x[1] in drop)) && NoInnerPair(x[1..], drop)
  {
  }

  lemma {:induction false} FilterDrops(x: seq<string>, drop: set<string>)
    ensures forall c :: c in Filter(x, drop) <==> c in x && c !in drop
  {
    if x != [] {
      FilterDrops(x[1..], drop);
      assert x == [x[0]] + x[1..];
    }
  }

  /** Sweeping is the plain filter exactly when no two neighbours before the end are both to go. */
  lemma {:induction false} SweptIsFilter(x: seq<string>, drop: set<string>)
    ensures Swept(x, drop) == Filter(x, drop) <==> NoInnerPair(x, drop)
    decreases |x|
  {
    if x == [] {
    } else if x[0] !in drop {
      InnerPairStep(x, drop);
      SweptIsFilter(x[1..], drop);
      SameHead(x[0], Swept(x[1..], drop), Filter(x[1..], drop));
    } else if |x| == 1 {
    } else if |x| == 2 && x[1] in drop {
      assert x[1..][1..] == [];
    } else if x[1] in drop {
      FilterDrops(x, drop);
      assert Swept(x, drop)[0] == x[1];
      InnerPairStep(x, drop);
    } else {
      InnerPairStep(x, drop);
      InnerPairStep(x[1..], drop);
      assert x[1..][1..] == x[2..];
      SweptIsFilter(x[2..], drop);
      assert Filter(x, drop) == Filter(x[1..], drop) == [x[1]] + Filter(x[2..], drop);
      SameHead(x[1], Swept(x[2..], drop), Filter(x[2..], drop));
    }
  }

  lemma SameHead(h: string, s: seq<string>, t: seq<string>)
    ensures [h] + s == [h] + t <==> s == t
  {
    assert ([h] + s)[1..] == s && ([h] + t)[1..] == t;
  }

  /** The cluster at i is to go but is passed over, because the one before it was taken out just before. */
  predicate Skipped(x: seq<string>, drop: set<string>, i: nat)
    requires i < |x|
  {
    i > 0 && x[i] in drop && x[i - 1] in drop && !Skipped(x, drop, i - 1)
  }

  lemma {:induction false} SkippedBehind(x: seq<string>, drop: set<string>, n: nat, i: nat)
    requires n <= i < |x| && (n == 0 || n == |x| || x[n - 1] !in drop || x[n] !in drop || Skipped(x, drop, n - 1))
    ensures Skipped(x, drop, i) <==> Skipped(x[n..], drop, i - n)
    decreases i
  {
    if i > n { SkippedBehind(x, drop, n, i - 1); }
  }

  /** Where a place of a list of different clusters is in the list without its first elements. */
  lemma PlaceBehind(x: seq<string>, n: nat, i: nat)
    requires NoDup(x) && n <= |x| && i < |x|
    ensures NoDup(x[n..]) && (x[i] in x[n..] <==> n <= i)
    ensures n <= i ==> x[n..][i - n] == x[i]
  {
    if n <= i { assert x[n..][i - n] == x[i]; }
  }

  /** Exactly these clusters are left: those not to go, and those passed over, except at the end, where the last one is
      met again. */
  lemma {:induction false} SweptExactly(x: seq<string>, drop: set<string>, i: nat)
    requires NoDup(x) && i < |x|
    ensures x[i] in Swept(x, drop) <==> x[i] !in drop || (Skipped(x, drop, i) && i + 1 < |x|)
    decreases |x|
  {
    PlaceBehind(x, 1, i);
    if x[0] !in drop {
      if i > 0 {
        SkippedBehind(x, drop, 1, i);
        SweptExactly(x[1..], drop, i - 1);
      }
    } else if |x| > 2 || (|x| == 2 && x[1] !in drop) {
      PlaceBehind(x, 2, i);
      SweptWithin(x[2..], drop);
      if i >= 2 {
        SkippedBehind(x, drop, 2, i);
        SweptExactly(x[2..], drop, i - 2);
      }
    }
  }

  lemma {:induction false} SweptWithin(x: seq<string>, drop: set<string>)
    ensures forall c :: c in Swept(x, drop) ==> c in x
    decreases |x|
  {
    if x == [] {
    } else if x[0] !in drop {
      SweptWithin(x[1..], drop);
    } else if |x| == 1 || (|x| == 2 && x[1] in drop) {
    } else {
      SweptWithin(x[2..], drop);
    }
  }

  // ----- The loop that does it -----

  /** The list without its last element, if that is z and z is to go. */
  function Trim(s: seq<string>, z: string, drop: set<string>): seq<string> {
    if z in drop && |s| > 0 && s[|s| - 1] == z then s[..|s| - 1] else s
  }

  /** Part of x not yet met: k clusters kept, x from p on untouched. */
  ghost predicate Inside(x: seq<string>, full: seq<string>, len: nat, k: nat, p: nat, drop: set<string>)
    requires p < |x| && k <= len <= |full|
  {
    && full[k..len] == x[p..] && (forall j :: 0 <= j < k ==> full[j] in x[..p])
    && Swept(x, drop) == full[..k] + Swept(x[p..], drop)
  }

  /** All of x met; the last cluster may still be there and is about to be met again. */
  ghost predicate AtEnd(x: seq<string>, full: seq<string>, len: nat, drop: set<string>)
    requires |x| > 0 && len <= |full|
  {
    && (forall j :: 0 <= j < len - 1 ==> full[j] != x[|x| - 1])
    && Swept(x, drop) == Trim(full[..len], x[|x| - 1], drop)
  }

  ghost predicate Done(x: seq<string>, full: seq<string>, len: nat, drop: set<string>)
    requires |x| > 0 && len <= |full|
  {
    && (x[|x| - 1] in drop ==> x[|x| - 1] !in full[..len])
    && Swept(x, drop) == full[..len]
  }

  /** The array full after k turns of the loop over x, when len clusters are left. */
  ghost predicate Midway(x: seq<string>, full: seq<string>, len: nat, k: nat, drop: set<string>) {
    var n := |x|;
    && 0 < n <= |full| && k <= n && len <= n
    && (forall j :: len <= j < n ==> full[j] == x[n - 1])
    && var p := k + (n - len);
       if p < n then Inside(x, full, len, k, p, drop)
       else if p == n then AtEnd(x, full, len, drop) && (len == n ==> x[n - 1] !in drop)
       else Done(x, full, len, drop)
  }

  lemma TurnKeep(x: seq<string>, full: seq<string>, len: nat, k: nat, drop: set<string>)
    requires NoDup(x) && Midway(x, full, len, k, drop) && k < len && full[k] !in drop
    ensures Midway(x, full, len, k + 1, drop)
  {
  }

  lemma DropShape(x: seq<string>, full: seq<string>, len: nat, k: nat, drop: set<string>)
    requires NoDup(x) && Midway(x, full, len, k, drop) && k < len
    ensures var f, n, p := Shifted(full, len, k), |x|, k + (|x| - len);
      && full[k] == x[p] && f[..len - 1] == full[..k] + x[p + 1..]
      && (forall j :: len - 1 <= j < n ==> f[j] == x[n - 1])
      && x[n - 1] !in full[..k]
  {
  }

  lemma DropThenInside(x: seq<string>, full: seq<string>, f: seq<string>, len: nat, k: nat, p: nat, drop: set<string>)
    requires p + 2 < |x| && k + 1 < len && |f| == |full| && len <= |full|
    requires Inside(x, full, len, k, p, drop) && x[p] in drop && f[..len - 1] == full[..k] + x[p + 1..]
    ensures Inside(x, f, len - 1, k + 1, p + 2, drop)
  {
  }

  lemma DropThenEnd(x: seq<string>, full: seq<string>, f: seq<string>, len: nat, k: nat, p: nat, drop: set<string>)
    requires p + 2 == |x| && k + 2 == len && |f| == |full| && len <= |full|
    requires Inside(x, full, len, k, p, drop) && x[p] in drop && f[..len - 1] == full[..k] + x[p + 1..]
    requires x[p + 1] !in full[..k]
    ensures AtEnd(x, f, len - 1, drop)
  {
    var left := f[..len - 1];
    assert x[p..] == [x[p], x[p + 1]];
    assert left == full[..k] + [x[p + 1]] && left[..k] == full[..k];
    assert x[p..][2..] == [];
    assert Swept(x[p..], drop) == if x[p + 1] in drop then [] else [x[p + 1]];
    forall j | 0 <= j < k ensures f[j] != x[p + 1] { assert f[j] == left[j] == full[..k][j]; }
  }

  lemma TurnDrop(x: seq<string>, full: seq<string>, len: nat, k: nat, drop: set<string>)
    requires NoDup(x) && Midway(x, full, len, k, drop) && k < len && full[k] in drop
    ensures Midway(x, Shifted(full, len, k), len - 1, k + 1, drop)
  {
    DropShape(x, full, len, k, drop);
    var n, f := |x|, Shifted(full, len, k);
    var p := k + (n - len);
    if p + 1 == n {
      assert f[..len - 1] == full[..k];
    } else if p + 2 == n {
      DropThenEnd(x, full, f, len, k, p, drop);
    } else {
      DropThenInside(x, full, f, len, k, p, drop);
    }
  }

  /** Past the remaining clusters the loop meets the last one again: it goes if it is still there. */
  lemma TurnLate(x: seq<string>, full: seq<string>, len: nat, k: nat, drop: set<string>)
    requires Midway(x, full, len, k, drop) && len <= k < |x|
    ensures full[k] in drop && full[k] in full[..len] ==>
      && 0 < len && full[len - 1] == full[k] && full[k] !in full[..len - 1]
      && Shifted(full, len, len - 1) == full && Midway(x, full, len - 1, k + 1, drop)
    ensures full[k] !in drop || full[k] !in full[..len] ==> Midway(x, full, len, k + 1, drop)
  {
  }

  lemma NotBefore(x: seq<string>, full: seq<string>, len: nat, k: nat, drop: set<string>)
    requires NoDup(x) && Midway(x, full, len, k, drop) && k < len
    ensures full[k] !in full[..k]
  {
  }

  /** One turn: the element at k of the array, as it now is, is removed from the current slice if it is to go. */
  method SweepTurn(r: GoSlice, k: nat, drop: set<string>, ghost x: seq<string>) returns (r': GoSlice)
    requires NoDup(x) && k < |x| <= r.arr.Length && Midway(x, r.arr[..], r.len, k, drop)
    modifies r.arr
    ensures r'.arr == r.arr && r'.len <= r.len && Midway(x, r.arr[..], r'.len, k + 1, drop)
  {
    ghost var full := r.arr[..];
    var c := r.arr[k];
    if k < r.len { NotBefore(x, full, r.len, k, drop); } else { TurnLate(x, full, r.len, k, drop); }
    if c !in drop {
      if k < r.len { TurnKeep(x, full, r.len, k, drop); }
      return r;
    }
    ghost var at;
    assert Items(r) == full[..r.len];
    r', at := RemoveElement(r, c);
    if k < r.len {
      FirstIs(full, r.len, at, k);
      TurnDrop(x, full, r.len, k, drop);
    } else if c in full[..r.len] {
      FirstIs(full, r.len, at, r.len - 1);
    }
  }

  lemma FirstIs(s: seq<string>, n: nat, i: nat, j: nat)
    requires i < n <= |s| && j < n && s[i] == s[j] && s[j] !in s[..i] && s[j] !in s[..j]
    ensures i == j
  {
  }

  /** The range loop of removeSliceApplicationNamespaces over one entry: it ranges over the old header. */
  method SweepEntry(s: GoSlice, drop: set<string>) returns (r: GoSlice)
    requires InBounds(s) && NoDup(Items(s))
    modifies s.arr
    ensures r.arr == s.arr && r.len <= s.len && Items(r) == Swept(old(Items(s)), drop)
  {
    ghost var x := Items(s);
    r := s;
    if s.len == 0 { return; }
    SweepStart(x, s.arr[..], drop);
    for k := 0 to s.len
      invariant r.arr == s.arr && r.len <= s.len
      invariant Midway(x, s.arr[..], r.len, k, drop)
    {
      r := SweepTurn(r, k, drop, x);
    }
    SweepDone(x, s.arr[..], r.len, drop);
  }

  lemma SweepStart(x: seq<string>, full: seq<string>, drop: set<string>)
    requires 0 < |x| <= |full| && full[..|x|] == x
    ensures Midway(x, full, |x|, 0, drop)
  {
  }

  lemma SweepDone(x: seq<string>, full: seq<string>, len: nat, drop: set<string>)
    requires Midway(x, full, len, |x|, drop)
    ensures full[..len] == Swept(x, drop)
  {
  }
}
