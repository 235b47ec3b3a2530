/** calculateGatewayNumber: numbering the unordered pairs of clusters. */
module GatewayNumber {

  function Number(x: int, y: int): int {
    var maximum := if y > x then y else x;
    var minimum := if y > x then x else y;
    ((maximum - 1) * (maximum - 2)) / 2 + minimum
  }

  /** How many numbers belong to pairs whose larger member is below m. */
  function Start(m: nat): nat {
    if m <= 2 then 0 else Start(m - 1) + (m - 2)
  }

  lemma {:induction false} StartIsTriangular(m: nat)
    requires m >= 1
    ensures (m - 1) * (m - 2) == 2 * Start(m)
  {
    if m > 2 {
      StartIsTriangular(m - 1);
      assert (m - 1) * (m - 2) == (m - 2) * (m - 3) + 2 * (m - 2);
    }
  }

  /** Pairs with larger member m are numbered Start(m) plus the smaller member. */
  lemma NumberByStart(x: nat, y: nat)
    requires x < y
    ensures Number(x, y) == Number(y, x) == Start(y) + x
  {
    StartIsTriangular(y);
  }

  lemma {:induction false} StartGrows(a: nat, b: nat)
    requires 1 <= a < b
    ensures Start(a) + (a - 1) <= Start(b)
    ensures a + 1 < b ==> Start(a) + (a - 1) < Start(b)
  {
    if a + 1 < b { StartGrows(a, b - 1); }
  }

  /** The pairs {0, m} and {m-2, m-1}, smaller member first. */
  predicate Colliding(x: nat, y: nat, u: nat, v: nat) {
    (x == 0 && u == y - 2 && v == y - 1) || (u == 0 && x == v - 2 && y == v - 1)
  }

  /** Over all naturals: two different pairs collide exactly when they are {0, m} and {m-2, m-1}. */
  lemma Collisions(x: nat, y: nat, u: nat, v: nat)
    requires x < y && u < v && (x != u || y != v)
    ensures Number(x, y) == Number(u, v) <==> Colliding(x, y, u, v)
  {
    NumberByStart(x, y);
    NumberByStart(u, v);
    if y < v {
      StartGrows(y, v);
    } else if v < y {
      StartGrows(v, y);
    }
  }

  /** Numbering is one-to-one on pairs of positive numbers. */
  lemma OneToOne(x: nat, y: nat, u: nat, v: nat)
    requires 1 <= x < y && 1 <= u < v
    ensures Number(x, y) == Number(u, v) <==> x == u && y == v
  {
    if x != u || y != v { Collisions(x, y, u, v); }
  }

  /** Pairs from 1..n are numbered inside 1..n(n-1)/2 ... */
  lemma {:induction false} Within(x: nat, y: nat, n: nat)
    requires 1 <= x < y <= n
    ensures 1 <= Number(x, y) <= n * (n - 1) / 2
  {
    NumberByStart(x, y);
    StartIsTriangular(n + 1);
    StartGrows(y, n + 1);
  }

  /** ... and every number in that range is taken. */
  lemma {:induction false} Onto(k: nat, n: nat) returns (x: nat, y: nat)
    requires 1 <= k <= n * (n - 1) / 2
    ensures 1 <= x < y <= n && Number(x, y) == k
  {
    StartIsTriangular(n + 1);
    if k > Start(n) {
      x, y := k - Start(n), n;
      NumberByStart(x, y);
    } else {
      StartIsTriangular(n);
      assert Start(n) == (n - 1) * (n - 2) / 2;
      x, y := Onto(k, n - 1);
    }
  }

  /** Two members swapped, or two pairs that collide. */
  predicate Confused(x: nat, y: nat, u: nat, v: nat) {
    || (x == v && y == u)
    || Colliding(if x < y then x else y, if x < y then y else x, if u < v then u else v, if u < v then v else u)
  }

  /** A number misses a change from (x, y) to (u, v) exactly when the two were swapped or collide. */
  lemma MissedChange(x: nat, y: nat, u: nat, v: nat)
    requires x != y && u != v && (x != u || y != v)
    ensures Number(x, y) == Number(u, v) <==> Confused(x, y, u, v)
  {
    var a, b := if x < y then x else y, if x < y then y else x;
    var c, d := if u < v then u else v, if u < v then v else u;
    assert Number(x, y) == Number(a, b) && Number(u, v) == Number(c, d);
    if a != c || b != d { Collisions(a, b, c, d); }
  }

  /** With one member fixed that leaves {0, 1} and {0, 2} only. */
  lemma MissedChangeOfOne(x: nat, y: nat, z: nat)
    requires x != y && x != z && y != z
    ensures Number(x, y) == Number(x, z) <==> x == 0 && ((y == 1 && z == 2) || (y == 2 && z == 1))
  {
    MissedChange(x, y, x, z);
  }
}
