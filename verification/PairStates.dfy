/** The two gateways of a pair as passes and the gateways' own reconciler see them, and what one step does to them. */
module PairStates {
  import opened SliceStore
  import opened Mesh
  import opened Mending

  type Test = Gateway -> bool

  /** Live and fit: Fresh, or Firm under a finalizer. Live and obsolete: Stale, or Owed under a finalizer. */
  datatype Status = Absent | Fresh | Firm | Stale | Owed | Dying

  function StatusOf(x: Store, fit: Test, k: GatewayKey): Status {
    if k !in x.gws then Absent
    else if k in x.dying then Dying
    else if fit(x.gws[k]) then if k in x.held then Firm else Fresh
    else if k in x.held then Owed else Stale
  }

  predicate SameView(x: Store, y: Store, fit: Test, p: GatewayKey) {
    StatusOf(x, fit, p) == StatusOf(y, fit, p) && StatusOf(x, fit, Rev(p)) == StatusOf(y, fit, Rev(p))
  }

  // ----- A pass -----

  /** The clean-up of a pass deletes these, all of them obsolete. */
  predicate Drops(x: Store, fit: Test, dropped: set<GatewayKey>) {
    dropped <= x.gws.Keys && forall k :: k in dropped ==> !fit(x.gws[k])
  }

  /** A pass over the pairs ps. */
  function Passed(x: Store, dropped: set<GatewayKey>, ps: seq<GatewayKey>, build: Builder): Store {
    var y := Swept(x, dropped);
    y.(gws := AddList(y.gws, ps, build).gws)
  }

  /** What a pass may do to one gateway in its clean-up. */
  predicate SweptTo(s: Status, t: Status) {
    t == s || (s == Stale && t == Absent) || (s == Owed && t == Dying)
  }

  /** What creation may do to a pair: nothing, or the forward gateway is new, and the other one if it was absent. */
  predicate FilledTo(f: Status, r: Status, f': Status, r': Status) {
    || (f' == f && r' == r)
    || (f == Absent && f' == Fresh && r' == if r == Absent then Fresh else r)
  }

  predicate PassedTo(f: Status, r: Status, f': Status, r': Status) {
    exists g, h :: SweptTo(f, g) && SweptTo(r, h) && FilledTo(g, h, f', r')
  }

  lemma SweptStatus(x: Store, fit: Test, dropped: set<GatewayKey>, k: GatewayKey)
    requires x.Marked() && Drops(x, fit, dropped)
    ensures Swept(x, dropped).Marked() && SweptTo(StatusOf(x, fit, k), StatusOf(Swept(x, dropped), fit, k))
    ensures k in dropped ==> StatusOf(Swept(x, dropped), fit, k) in {Absent, Dying}
  {
  }

  /** Creation on a marked store, seen at one of the pairs it visits. */
  lemma FilledStatus(x: Store, fit: Test, ps: seq<GatewayKey>, build: Builder, p: GatewayKey)
    requires x.Marked() && Oriented(ps) && BuildsFit(ps, build, fit) && p in ps
    ensures var y := x.(gws := AddList(x.gws, ps, build).gws);
      && Treated(x.gws, y.gws, p, build)
      && FilledTo(StatusOf(x, fit, p), StatusOf(x, fit, Rev(p)), StatusOf(y, fit, p), StatusOf(y, fit, Rev(p)))
  {
    AddListEffect(x.gws, ps, build);
    assert p.0 != p.1;
  }

  /** A pass seen at one of the pairs it visits. */
  lemma PassView(x: Store, fit: Test, dropped: set<GatewayKey>, ps: seq<GatewayKey>, build: Builder, p: GatewayKey)
    requires x.Marked() && Drops(x, fit, dropped) && Oriented(ps) && BuildsFit(ps, build, fit) && p in ps
    ensures var y := Passed(x, dropped, ps, build);
      && Treated(Swept(x, dropped).gws, y.gws, p, build)
      && PassedTo(StatusOf(x, fit, p), StatusOf(x, fit, Rev(p)), StatusOf(y, fit, p), StatusOf(y, fit, Rev(p)))
  {
    SweptStatus(x, fit, dropped, p);
    SweptStatus(x, fit, dropped, Rev(p));
    FilledStatus(Swept(x, dropped), fit, ps, build, p);
  }

  /** And at any other pair. */
  lemma PassViewAway(x: Store, fit: Test, dropped: set<GatewayKey>, ps: seq<GatewayKey>, build: Builder, p: GatewayKey)
    requires x.Marked() && Drops(x, fit, dropped) && Oriented(ps) && p !in ps && Rev(p) !in ps
    ensures var y := Passed(x, dropped, ps, build);
      PassedTo(StatusOf(x, fit, p), StatusOf(x, fit, Rev(p)), StatusOf(y, fit, p), StatusOf(y, fit, Rev(p)))
  {
    SweptStatus(x, fit, dropped, p);
    SweptStatus(x, fit, dropped, Rev(p));
    AddListEffect(Swept(x, dropped).gws, ps, build);
    assert Rev(Rev(p)) == p;
    assert FilledTo(StatusOf(Swept(x, dropped), fit, p), StatusOf(Swept(x, dropped), fit, Rev(p)),
                    StatusOf(Passed(x, dropped, ps, build), fit, p), StatusOf(Passed(x, dropped, ps, build), fit, Rev(p)));
  }

  // ----- A turn -----

  /** A live gateway after its turn. */
  function Finalized(s: Status): Status {
    match s
    case Fresh => Firm
    case Stale => Owed
    case _ => s
  }

  /** A gateway after its deletion. */
  function Hit(s: Status): Status {
    match s
    case Firm => Dying
    case Owed => Dying
    case Dying => Dying
    case _ => Absent
  }

  /** The first of two gateways has its turn. */
  predicate TurnedTo(s: Status, t: Status, s': Status, t': Status) {
    if s == Dying then s' == Absent && (t' == t || t' == Hit(t)) else s' == Finalized(s) && t' == t
  }

  lemma TurnView(x: Store, clusters: seq<string>, fit: Test, k: GatewayKey)
    requires x.Marked() && k.0 != k.1
    ensures var y := Turned(x, clusters, k);
      && TurnedTo(StatusOf(x, fit, k), StatusOf(x, fit, Rev(k)), StatusOf(y, fit, k), StatusOf(y, fit, Rev(k)))
      && (StatusOf(x, fit, k) == Dying && k.0 in clusters ==> StatusOf(y, fit, Rev(k)) == Hit(StatusOf(x, fit, Rev(k))))
  {
  }

  lemma TurnViewAway(x: Store, clusters: seq<string>, fit: Test, k: GatewayKey, j: GatewayKey)
    requires j != k && j != Rev(k)
    ensures StatusOf(Turned(x, clusters, k), fit, j) == StatusOf(x, fit, j)
  {
  }

  // ----- Progress -----

  function Weight(s: Status): nat {
    match s
    case Stale => 2
    case Owed => 1
    case _ => 0
  }

  function Slack(s: Status): nat {
    match s
    case Absent => 2
    case Fresh => 1
    case Dying => 3
    case _ => 0
  }

  /** How far a pair is from rest. */
  function Rank(f: Status, r: Status): nat {
    if Weight(f) + Weight(r) > 0 then 10 * (Weight(f) + Weight(r)) + Slack(f) + Slack(r)
    else
      match (f, r)
      case (Absent, Dying) => 7
      case (Fresh, Dying) => 6
      case (Firm, Dying) => 5
      case (Dying, Absent) => 4
      case (Dying, Fresh) => 9
      case (Dying, _) => 8
      case (Absent, Firm) => 2
      case (Absent, _) => 3
      case (Firm, Absent) => 0
      case (Fresh, Absent) => 1
      case (_, _) => (if f == Fresh then 1 else 0) + (if r == Fresh then 1 else 0)
  }

  lemma RankBound(f: Status, r: Status)
    ensures Rank(f, r) <= 40
  {
  }

  /** Every step that changes what is seen of a pair brings it closer to rest. */
  lemma PassRank(f: Status, r: Status, f': Status, r': Status)
    requires PassedTo(f, r, f', r')
    ensures (f', r') == (f, r) || Rank(f', r') < Rank(f, r)
  {
  }

  lemma TurnRank(s: Status, t: Status, s': Status, t': Status)
    requires TurnedTo(s, t, s', t')
    ensures (s', t') == (s, t) || Rank(s', t') < Rank(s, t)
    ensures (s', t') == (s, t) || Rank(t', s') < Rank(t, s)
  {
  }

  // ----- Wedged pairs -----

  /** As built now, if it exists. */
  predicate Right(g: Gateways, build: Builder, k: GatewayKey) {
    k in g ==> g[k] == build(k.0, k.1, g[k].role)
  }

  /** Creation completes such a pair to a right one. */
  predicate Sound(g: Gateways, build: Builder, p: GatewayKey) {
    PairMendable(g, p) && Right(g, build, p) && Right(g, build, Rev(p))
  }

  predicate Resting(s: Status) {
    s == Absent || s == Fresh || s == Firm
  }

  /** No gateway of the pair is deleted or obsolete, and yet the pair is not, and will not be made, a right one. */
  predicate Wedged(x: Store, fit: Test, build: Builder, p: GatewayKey) {
    Resting(StatusOf(x, fit, p)) && Resting(StatusOf(x, fit, Rev(p))) && !Sound(x.gws, build, p)
  }

  /** Nothing mends a wedged pair. */
  lemma WedgedPass(x: Store, fit: Test, dropped: set<GatewayKey>, ps: seq<GatewayKey>, build: Builder, p: GatewayKey)
    requires x.Marked() && Drops(x, fit, dropped) && Oriented(ps) && BuildsFit(ps, build, fit) && KeepsRole(build)
    requires p in ps && Wedged(x, fit, build, p)
    ensures Wedged(Passed(x, dropped, ps, build), fit, build, p)
  {
    PassView(x, fit, dropped, ps, build, p);
    assert p !in dropped && Rev(p) !in dropped;
    var g := Swept(x, dropped).gws;
    assert SameAt(x.gws, g, p) && SameAt(x.gws, g, Rev(p)) && p.0 != p.1;
  }

  lemma WedgedTurn(x: Store, clusters: seq<string>, fit: Test, build: Builder, k: GatewayKey, p: GatewayKey)
    requires x.Marked() && p.0 != p.1 && Wedged(x, fit, build, p)
    ensures Wedged(Turned(x, clusters, k), fit, build, p)
  {
    assert Rev(Rev(p)) == p && Rev(Rev(k)) == k;
    if k != p && k != Rev(p) {
      TurnViewAway(x, clusters, fit, k, p);
      TurnViewAway(x, clusters, fit, k, Rev(p));
    }
  }

  /** Every obsolete gateway has its finalizer. */
  predicate Guarded(x: Store, fit: Test) {
    forall k :: k in x.gws && !fit(x.gws[k]) ==> k in x.held
  }

  /** While every obsolete gateway has its finalizer, no pass wedges a pair. */
  lemma GuardedPass(x: Store, fit: Test, dropped: set<GatewayKey>, ps: seq<GatewayKey>, build: Builder, p: GatewayKey)
    requires x.Marked() && Drops(x, fit, dropped) && Oriented(ps) && BuildsFit(ps, build, fit) && KeepsRole(build)
    requires Guarded(x, fit) && p in ps
    ensures Wedged(Passed(x, dropped, ps, build), fit, build, p) ==> Wedged(x, fit, build, p)
  {
    var y := Passed(x, dropped, ps, build);
    PassView(x, fit, dropped, ps, build, p);
    assert Swept(x, dropped).gws == x.gws;
    assert p.0 != p.1;
  }

  lemma GuardedKept(x: Store, fit: Test, dropped: set<GatewayKey>, ps: seq<GatewayKey>, build: Builder)
    requires x.Marked() && Drops(x, fit, dropped) && Oriented(ps) && BuildsFit(ps, build, fit) && KeepsRole(build)
    requires Guarded(Swept(x, dropped), fit)
    ensures Guarded(Passed(x, dropped, ps, build), fit)
  {
    var g := Swept(x, dropped).gws;
    var r := AddList(g, ps, build).gws;
    AddListBuilt(g, ps, build);
    forall k | k in r && k !in g ensures fit(r[k]) { assert Rev(k).0 == k.1 && Rev(k).1 == k.0; }
  }

  /** No turn wedges a pair of listed clusters. */
  lemma TurnUnwedged(x: Store, clusters: seq<string>, fit: Test, build: Builder, k: GatewayKey, p: GatewayKey)
    requires x.Marked() && p.0 != p.1 && p.0 in clusters && p.1 in clusters
    ensures Wedged(Turned(x, clusters, k), fit, build, p) ==> Wedged(x, fit, build, p)
  {
    assert Rev(Rev(p)) == p && Rev(Rev(k)) == k;
    if k == p || k == Rev(p) {
      TurnView(x, clusters, fit, k);
    } else {
      TurnViewAway(x, clusters, fit, k, p);
      TurnViewAway(x, clusters, fit, k, Rev(p));
    }
  }

  lemma GuardedTurn(x: Store, clusters: seq<string>, fit: Test, k: GatewayKey)
    requires x.Marked() && Guarded(x, fit)
    ensures Guarded(Turned(x, clusters, k), fit)
  {
  }

  // ----- The full clean-up -----

  function Unfit(x: Store, fit: Test): set<GatewayKey> {
    set k | k in x.gws && !fit(x.gws[k])
  }

  /** What is left once every obsolete gateway was deleted. */
  function Tidy(x: Store, fit: Test): Store {
    Swept(x, Unfit(x, fit))
  }

  lemma TidySame(x: Store, fit: Test)
    requires Unfit(x, fit) == {}
    ensures Tidy(x, fit) == x
  {
  }

  /** A pass that lists everything wedges no pair but those that its clean-up leaves wedged. */
  lemma TidyPass(x: Store, fit: Test, ps: seq<GatewayKey>, build: Builder, p: GatewayKey)
    requires x.Marked() && Oriented(ps) && BuildsFit(ps, build, fit) && KeepsRole(build) && p in ps
    ensures var y := Passed(x, Unfit(x, fit), ps, build);
      && Tidy(y, fit) == y
      && (Wedged(y, fit, build, p) <==> Wedged(Tidy(x, fit), fit, build, p))
  {
    var t, y := Tidy(x, fit), Passed(x, Unfit(x, fit), ps, build);
    assert Guarded(t, fit) && t.Marked();
    GuardedKept(x, fit, Unfit(x, fit), ps, build);
    assert Passed(t, {}, ps, build) == y by { assert Swept(t, {}) == t; }
    GuardedPass(t, fit, {}, ps, build, p);
    if Wedged(t, fit, build, p) { WedgedPass(t, fit, {}, ps, build, p); }
    TidyTwice(x, fit, ps, build);
  }

  lemma TidyTwice(x: Store, fit: Test, ps: seq<GatewayKey>, build: Builder)
    requires x.Marked() && Oriented(ps) && BuildsFit(ps, build, fit) && KeepsRole(build)
    ensures Tidy(Passed(x, Unfit(x, fit), ps, build), fit) == Passed(x, Unfit(x, fit), ps, build)
  {
    var g, y := Tidy(x, fit).gws, Passed(x, Unfit(x, fit), ps, build);
    AddListBuilt(g, ps, build);
    forall k | k in Unfit(y, fit) ensures k in y.dying {
      assert k in g && k in Unfit(x, fit) && k in x.held;
    }
  }

  lemma TidyStatus(x: Store, fit: Test, k: GatewayKey)
    requires x.Marked()
    ensures StatusOf(Tidy(x, fit), fit, k) ==
            match StatusOf(x, fit, k) { case Stale => Absent case Owed => Dying case s => s }
    ensures k in Tidy(x, fit).gws ==> k in x.gws && Tidy(x, fit).gws[k] == x.gws[k]
  {
  }

  lemma SoundSame(g: Gateways, h: Gateways, build: Builder, p: GatewayKey)
    requires SameAt(g, h, p) && SameAt(g, h, Rev(p))
    ensures Sound(g, build, p) <==> Sound(h, build, p)
  {
  }

  lemma TidyAway(x: Store, clusters: seq<string>, fit: Test, k: GatewayKey, j: GatewayKey)
    requires j != k && j != Rev(k)
    ensures SameAt(Tidy(x, fit).gws, Tidy(Turned(x, clusters, k), fit).gws, j)
    ensures StatusOf(Tidy(Turned(x, clusters, k), fit), fit, j) == StatusOf(Tidy(x, fit), fit, j)
  {
  }

  /** A turn of a gateway of a pair of listed clusters, seen after the clean-up that follows. */
  lemma TidyTurnOwn(x: Store, clusters: seq<string>, fit: Test, k: GatewayKey)
    requires x.Marked() && k.0 != k.1 && k.0 in clusters
    ensures var t, t' := Tidy(x, fit), Tidy(Turned(x, clusters, k), fit);
      || (StatusOf(t', fit, k) == Dying || StatusOf(t', fit, Rev(k)) == Dying || (k !in t'.gws && Rev(k) !in t'.gws))
      || (&& SameAt(t.gws, t'.gws, k) && SameAt(t.gws, t'.gws, Rev(k))
          && (Resting(StatusOf(t', fit, k)) ==> Resting(StatusOf(t, fit, k)))
          && (Resting(StatusOf(t', fit, Rev(k))) ==> Resting(StatusOf(t, fit, Rev(k)))))
  {
    var y := Turned(x, clusters, k);
    TurnView(x, clusters, fit, k);
    TurnedFacts(x, clusters, k);
    TidyStatus(x, fit, k);
    TidyStatus(y, fit, k);
    TidyStatus(x, fit, Rev(k));
    TidyStatus(y, fit, Rev(k));
  }

  /** Neither does a turn. */
  lemma TidyTurn(x: Store, clusters: seq<string>, fit: Test, build: Builder, k: GatewayKey, p: GatewayKey)
    requires x.Marked() && p.0 != p.1 && p.0 in clusters && p.1 in clusters
    ensures Wedged(Tidy(Turned(x, clusters, k), fit), fit, build, p) ==> Wedged(Tidy(x, fit), fit, build, p)
  {
    var t, t' := Tidy(x, fit), Tidy(Turned(x, clusters, k), fit);
    assert Rev(Rev(p)) == p && Rev(Rev(k)) == k;
    if k == p || k == Rev(p) {
      TidyTurnOwn(x, clusters, fit, k);
    } else {
      TidyAway(x, clusters, fit, k, p);
      TidyAway(x, clusters, fit, k, Rev(p));
    }
    if SameAt(t.gws, t'.gws, p) && SameAt(t.gws, t'.gws, Rev(p)) { SoundSame(t.gws, t'.gws, build, p); }
  }

  // ----- All pairs -----

  /** Every gateway belongs to one of the pairs. */
  predicate Covers(qs: seq<GatewayKey>, x: Store) {
    forall k :: k in x.gws ==> k in qs || Rev(k) in qs
  }

  function PairRank(x: Store, fit: Test, p: GatewayKey): nat {
    Rank(StatusOf(x, fit, p), StatusOf(x, fit, Rev(p)))
  }

  function Total(x: Store, fit: Test, qs: seq<GatewayKey>): nat {
    if qs == [] then 0 else PairRank(x, fit, qs[0]) + Total(x, fit, qs[1..])
  }

  /** From x to y each pair looks the same, or is closer to rest. */
  ghost predicate Closer(x: Store, y: Store, fit: Test, qs: seq<GatewayKey>) {
    forall p :: p in qs ==> SameView(x, y, fit, p) || PairRank(y, fit, p) < PairRank(x, fit, p)
  }

  lemma {:induction false} TotalDrops(x: Store, y: Store, fit: Test, qs: seq<GatewayKey>)
    requires Closer(x, y, fit, qs)
    ensures Total(y, fit, qs) <= Total(x, fit, qs)
    ensures Total(y, fit, qs) == Total(x, fit, qs) ==> forall p :: p in qs ==> SameView(x, y, fit, p)
  {
    if qs != [] {
      assert qs == [qs[0]] + qs[1..];
      TotalDrops(x, y, fit, qs[1..]);
    }
  }

  lemma {:induction false} TotalBound(x: Store, fit: Test, qs: seq<GatewayKey>)
    ensures Total(x, fit, qs) <= 40 * |qs|
  {
    if qs != [] {
      RankBound(StatusOf(x, fit, qs[0]), StatusOf(x, fit, Rev(qs[0])));
      TotalBound(x, fit, qs[1..]);
    }
  }

  lemma PassCloser(x: Store, fit: Test, dropped: set<GatewayKey>, ps: seq<GatewayKey>, build: Builder, p: GatewayKey)
    requires x.Marked() && Drops(x, fit, dropped) && Oriented(ps) && BuildsFit(ps, build, fit)
    requires p in ps || Rev(p) !in ps
    ensures var y := Passed(x, dropped, ps, build);
      SameView(x, y, fit, p) || PairRank(y, fit, p) < PairRank(x, fit, p)
  {
    var y := Passed(x, dropped, ps, build);
    if p in ps { PassView(x, fit, dropped, ps, build, p); } else { PassViewAway(x, fit, dropped, ps, build, p); }
    PassRank(StatusOf(x, fit, p), StatusOf(x, fit, Rev(p)), StatusOf(y, fit, p), StatusOf(y, fit, Rev(p)));
  }

  lemma TurnCloser(x: Store, clusters: seq<string>, fit: Test, k: GatewayKey, p: GatewayKey)
    requires x.Marked() && p.0 != p.1
    ensures var y := Turned(x, clusters, k);
      SameView(x, y, fit, p) || PairRank(y, fit, p) < PairRank(x, fit, p)
  {
    var y := Turned(x, clusters, k);
    assert Rev(Rev(p)) == p && Rev(Rev(k)) == k;
    if k == p || k == Rev(p) {
      TurnView(x, clusters, fit, k);
      TurnRank(StatusOf(x, fit, k), StatusOf(x, fit, Rev(k)), StatusOf(y, fit, k), StatusOf(y, fit, Rev(k)));
    } else {
      TurnViewAway(x, clusters, fit, k, p);
      TurnViewAway(x, clusters, fit, k, Rev(p));
    }
  }

  lemma SameStatuses(x: Store, y: Store, fit: Test, qs: seq<GatewayKey>, k: GatewayKey)
    requires forall p :: p in qs ==> SameView(x, y, fit, p)
    requires k in qs || Rev(k) in qs
    ensures StatusOf(x, fit, k) == StatusOf(y, fit, k)
  {
    assert Rev(Rev(k)) == k;
    assert SameView(x, y, fit, if k in qs then k else Rev(k));
  }

  /** What equal statuses say. */
  lemma SameAtKey(x: Store, y: Store, fit: Test, k: GatewayKey)
    requires StatusOf(x, fit, k) == StatusOf(y, fit, k)
    ensures k in x.gws <==> k in y.gws
    ensures k in x.gws ==> (k in x.dying <==> k in y.dying)
    ensures k in x.gws && k !in x.dying ==> (k in x.held <==> k in y.held) && (fit(x.gws[k]) <==> fit(y.gws[k]))
  {
  }

  /** A pass that changes what is seen of no pair changes nothing. */
  lemma PassSame(x: Store, fit: Test, dropped: set<GatewayKey>, ps: seq<GatewayKey>, build: Builder, qs: seq<GatewayKey>)
    requires x.Marked() && Drops(x, fit, dropped) && Oriented(ps) && BuildsFit(ps, build, fit) && KeepsRole(build)
    requires Covers(qs, x) && Covers(qs, Passed(x, dropped, ps, build))
    requires forall p :: p in qs ==> SameView(x, Passed(x, dropped, ps, build), fit, p)
    ensures Passed(x, dropped, ps, build) == x
  {
    var g, y := Swept(x, dropped).gws, Passed(x, dropped, ps, build);
    AddListBuilt(g, ps, build);
    forall k | k in x.gws && k in y.gws
      ensures k !in g ==> fit(y.gws[k]) && !fit(x.gws[k])
      ensures k in g ==> y.gws[k] == x.gws[k]
    {
      if k !in g { assert Rev(k).0 == k.1 && Rev(k).1 == k.0; }
    }
    forall k | k in x.gws || k in y.gws
      ensures k in x.gws && k in y.gws && y.gws[k] == x.gws[k] && (k in x.dying <==> k in y.dying)
    {
      SameStatuses(x, y, fit, qs, k);
      SameAtKey(x, y, fit, k);
      if k in x.dying { assert k in x.held && k in g; }
    }
    assert y.gws == x.gws && y.dying == x.dying;
  }

  lemma TurnSame(x: Store, clusters: seq<string>, fit: Test, k: GatewayKey, qs: seq<GatewayKey>)
    requires x.Marked() && Covers(qs, x) && (forall p :: p in qs ==> SameView(x, Turned(x, clusters, k), fit, p))
    requires k in x.gws ==> k.0 != k.1
    ensures Turned(x, clusters, k) == x
  {
    if k in x.gws {
      SameStatuses(x, Turned(x, clusters, k), fit, qs, k);
      TurnView(x, clusters, fit, k);
    }
  }
}
