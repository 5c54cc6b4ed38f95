/**
 * The order-free hash of a protection section: a row count and the sum of the row
 * digests modulo 2^256.
 */
module SectionHashing {
  import opened Basics

  const MOD: nat := 0x1_0000000000000000_0000000000000000_0000000000000000_0000000000000000

  datatype Hash = Hash(count: nat, acc: nat)

  /** What adding the items one by one computes. */
  function HashOf<T>(digest: T -> nat, items: seq<T>): Hash {
    if items == [] then Hash(0, 0)
    else
      var h := HashOf(digest, items[..|items| - 1]);
      Hash(h.count + 1, (h.acc + digest(items[|items| - 1])) % MOD)
  }

  class SectionHash<T> {
    const digest: T -> nat
    var count: nat
    var acc: nat
    ghost var items: seq<T>

    ghost predicate Valid()
      reads this
    {
      Hash(count, acc) == HashOf(digest, items)
    }

    constructor (digest: T -> nat)
      ensures Valid() && items == [] && this.digest == digest
    {
      this.digest := digest;
      count, acc := 0, 0;
      items := [];
    }

    method Add(item: T)
      requires Valid()
      modifies this
      ensures Valid() && items == old(items) + [item]
    {
      count := count + 1;
      acc := (acc + digest(item)) % MOD;
      items := items + [item];
      assert items[..|items| - 1] == old(items);
    }

    method Result() returns (h: Hash)
      requires Valid()
      ensures h == HashOf(digest, items)
    {
      h := Hash(count, acc);
    }
  }

  /** The rows of a scan that belong to the section, in scan order. */
  function Kept<T>(rows: seq<T>, keep: T -> bool): seq<T> {
    if rows == [] then []
    else Kept(rows[..|rows| - 1], keep) + (if keep(rows[|rows| - 1]) then [rows[|rows| - 1]] else [])
  }

  /** One streaming pass over a table. */
  method HashScan<T>(digest: T -> nat, rows: seq<T>, keep: T -> bool) returns (h: Hash)
    ensures h == HashOf(digest, Kept(rows, keep))
  {
    var section := new SectionHash(digest);
    for i := 0 to |rows|
      invariant fresh(section) && section.Valid() && section.digest == digest
      invariant section.items == Kept(rows[..i], keep)
    {
      assert rows[..i + 1][..i] == rows[..i];
      if keep(rows[i]) {
        section.Add(rows[i]);
      }
    }
    assert rows[..|rows|] == rows;
    h := section.Result();
  }

  // ----------------------------------------------------------- order freedom

  function Without<T>(s: seq<T>, i: nat): seq<T>
    requires i < |s|
  {
    s[..i] + s[i + 1..]
  }

  /** Moving one row to the end of the scan changes nothing. */
  lemma {:induction false} HashExtract<T>(digest: T -> nat, items: seq<T>, i: nat)
    requires i < |items|
    ensures HashOf(digest, items) == HashOf(digest, Without(items, i) + [items[i]])
  {
    var last := |items| - 1;
    if i == last {
      assert Without(items, i) + [items[i]] == items;
    } else {
      var init := items[..last];
      HashExtract(digest, init, i);
      var moved := Without(items, i) + [items[i]];
      assert moved[..|moved| - 1] == Without(items, i);
      assert Without(items, i)[..|Without(items, i)| - 1] == Without(init, i);
      assert Without(items, i)[|Without(items, i)| - 1] == items[last];
      var back := Without(init, i) + [init[i]];
      assert back[..|back| - 1] == Without(init, i);
      AddSwap(HashOf(digest, Without(init, i)).acc, digest(items[i]), digest(items[last]));
    }
  }

  lemma AddSwap(a: nat, x: nat, y: nat)
    ensures ((a + x) % MOD + y) % MOD == ((a + y) % MOD + x) % MOD
  {
    AddMod(a + x, y);
    AddMod(a + y, x);
  }

  lemma AddMod(a: nat, x: nat)
    ensures (a % MOD + x) % MOD == (a + x) % MOD
  {
    var q := a / MOD;
    assert a == q * MOD + a % MOD;
    ModAddMultiple(a % MOD + x, q);
  }

  lemma {:induction false} ModAddMultiple(r: nat, q: nat)
    ensures (q * MOD + r) % MOD == r % MOD
  {
    if q > 0 {
      ModAddMultiple(r, q - 1);
      var b := (q - 1) * MOD + r;
      assert (b + MOD) % MOD == b % MOD;
      assert q * MOD + r == b + MOD;
    }
  }

  /** The hash of a section depends only on the multiset of its rows, never on the scan order. */
  lemma {:induction false} HashIsOrderFree<T>(digest: T -> nat, a: seq<T>, b: seq<T>)
    requires multiset(a) == multiset(b)
    ensures HashOf(digest, a) == HashOf(digest, b)
    decreases |a|
  {
    assert |multiset(a)| == |a| && |multiset(b)| == |b|;
    if a != [] {
      var init, x := a[..|a| - 1], a[|a| - 1];
      assert a == init + [x];
      assert x in multiset(b);
      var i :| 0 <= i < |b| && b[i] == x;
      hide HashOf;
      HashExtract(digest, b, i);
      RestAgrees(init, b, i);
      HashIsOrderFree(digest, init, Without(b, i));
      SameLastRow(digest, init, Without(b, i), x);
    }
  }

  lemma SameLastRow<T>(digest: T -> nat, a: seq<T>, b: seq<T>, x: T)
    requires HashOf(digest, a) == HashOf(digest, b)
    ensures HashOf(digest, a + [x]) == HashOf(digest, b + [x])
  {
    assert (a + [x])[..|a|] == a && (b + [x])[..|b|] == b;
  }

  lemma RestAgrees<T>(init: seq<T>, b: seq<T>, i: nat)
    requires i < |b| && multiset(init + [b[i]]) == multiset(b)
    ensures multiset(init) == multiset(Without(b, i))
  {
    assert b == b[..i] + [b[i]] + b[i + 1..];
    assert multiset(b) == multiset(Without(b, i)) + multiset{b[i]};
    assert multiset(init + [b[i]]) == multiset(init) + multiset{b[i]};
    assert multiset(init) == multiset(b) - multiset{b[i]};
  }

  lemma {:induction false} KeptRows<T>(rows: seq<T>, keep: T -> bool, x: T)
    ensures multiset(Kept(rows, keep))[x] == if keep(x) then multiset(rows)[x] else 0
  {
    if rows != [] {
      KeptRows(rows[..|rows| - 1], keep, x);
      assert rows == rows[..|rows| - 1] + [rows[|rows| - 1]];
    }
  }

  lemma KeptDelete<T>(before: seq<T>, after: seq<T>, deleted: seq<T>, keep: T -> bool, x: T)
    requires multiset(before) == multiset(after) + multiset(deleted)
    requires forall x :: x in deleted ==> !keep(x)
    ensures multiset(Kept(before, keep))[x] == multiset(Kept(after, keep))[x]
  {
    KeptRows(before, keep, x);
    KeptRows(after, keep, x);
    assert multiset(before)[x] == multiset(after)[x] + multiset(deleted)[x];
    assert multiset(deleted)[x] > 0 ==> x in deleted;
  }

  /** Deleting rows outside the section leaves its hash, whatever order the two scans use. */
  lemma SectionIgnoresDeletedRows<T>(digest: T -> nat, before: seq<T>, after: seq<T>, deleted: seq<T>, keep: T -> bool)
    requires multiset(before) == multiset(after) + multiset(deleted)
    requires forall x :: x in deleted ==> !keep(x)
    ensures HashOf(digest, Kept(before, keep)) == HashOf(digest, Kept(after, keep))
  {
    var a, b := Kept(before, keep), Kept(after, keep);
    forall x
      ensures multiset(a)[x] == multiset(b)[x]
    {
      KeptDelete(before, after, deleted, keep, x);
    }
    MultisetsAgree(a, b);
    HashIsOrderFree(digest, a, b);
  }

  lemma MultisetsAgree<T>(a: seq<T>, b: seq<T>)
    requires forall x :: multiset(a)[x] == multiset(b)[x]
    ensures multiset(a) == multiset(b)
  {
  }

  /** Two scans of the same set of distinct rows agree. */
  lemma SameRowsSameHash<T>(digest: T -> nat, a: seq<T>, b: seq<T>)
    requires Distinct(a) && Distinct(b) && Elements(a) == Elements(b)
    ensures HashOf(digest, a) == HashOf(digest, b)
  {
    forall x
      ensures multiset(a)[x] == multiset(b)[x]
    {
      DistinctCount(a, x);
      DistinctCount(b, x);
      assert x in a <==> x in Elements(a);
      assert x in b <==> x in Elements(b);
    }
    assert multiset(a) == multiset(b);
    HashIsOrderFree(digest, a, b);
  }

  lemma {:induction false} DistinctCount<T>(s: seq<T>, x: T)
    requires Distinct(s)
    ensures multiset(s)[x] == if x in s then 1 else 0
  {
    if s != [] {
      var init, last := s[..|s| - 1], s[|s| - 1];
      assert s == init + [last];
      assert forall i, j :: 0 <= i < j < |init| ==> init[i] == s[i] && init[j] == s[j];
      DistinctCount(init, x);
      assert forall i :: 0 <= i < |init| ==> s[i] != s[|s| - 1];
    }
  }

  /**
   * The converse fails even for an injective row digest: a sum cannot tell 0 + 3 from
   * 1 + 2, so equal hashes do not prove equal rows.
   */
  lemma SumHashCollides() returns (digest: nat -> nat, a: seq<nat>, b: seq<nat>)
    ensures forall x, y :: digest(x) == digest(y) ==> x == y
    ensures HashOf(digest, a) == HashOf(digest, b) && multiset(a) != multiset(b)
  {
    digest := x => x;
    a, b := [0, 3], [1, 2];
    assert a[..1] == [0] && b[..1] == [1] && [0][..0] == [] && [1][..0] == [];
    assert HashOf(digest, [0]) == Hash(1, 0) && HashOf(digest, [1]) == Hash(1, 1);
    assert multiset(a)[0] == 1 && multiset(b)[0] == 0;
  }

  /** The numbers below n. */
  function Below(n: nat): (s: set<nat>)
    ensures |s| == n && forall i :: i in s <==> 0 <= i < n
  {
    if n == 0 then {} else Below(n - 1) + {n - 1}
  }

  lemma SubsetIsNoLarger<T>(a: set<T>, b: set<T>)
    requires a <= b
    ensures |a| <= |b|
  {
    assert b == a + (b - a);
  }

  lemma {:induction false} DistinctElements<T>(s: seq<T>)
    requires Distinct(s)
    ensures |Elements(s)| == |s|
  {
    if s != [] {
      var n := |s| - 1;
      DistinctElements(s[..n]);
      assert s == s[..n] + [s[n]] && s[n] !in s[..n];
      assert Elements(s) == Elements(s[..n]) + {s[n]};
    }
  }

  lemma Pigeonhole(s: seq<nat>, n: nat)
    requires |s| > n && forall i :: 0 <= i < |s| ==> s[i] < n
    ensures !Distinct(s)
  {
    if Distinct(s) {
      DistinctElements(s);
      SubsetIsNoLarger(Elements(s), Below(n));
    }
  }

  /**
   * Nor does any other digest help: whatever it is, among more than 2^256 different rows there are
   * two whose one-row sections have the same hash.
   */
  lemma EveryDigestCollides<T>(digest: T -> nat, rows: seq<T>)
    requires Distinct(rows) && |rows| > MOD
    ensures exists i, j :: 0 <= i < j < |rows| && rows[i] != rows[j] && HashOf(digest, [rows[i]]) == HashOf(digest, [rows[j]])
  {
    var sums := seq(|rows|, i requires 0 <= i < |rows| => digest(rows[i]) % MOD);
    Pigeonhole(sums, MOD);
    var i, j :| 0 <= i < j < |sums| && sums[i] == sums[j];
    OneRow(digest, rows[i]);
    OneRow(digest, rows[j]);
  }

  lemma OneRow<T>(digest: T -> nat, x: T)
    ensures HashOf(digest, [x]) == Hash(1, digest(x) % MOD)
  {
    assert [x][..0] == [];
  }
}
