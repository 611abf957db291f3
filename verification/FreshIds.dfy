// The search for an unused numbered id.
module FreshIds {
  import Decimal

  function NewId(prefix: string, n: nat): string {
    prefix + Decimal.PadStart(Decimal.Print(n), 3)
  }

  lemma NewIdsDiffer(prefix: string, m: nat, n: nat)
    requires NewId(prefix, m) == NewId(prefix, n)
    ensures m == n
  {
    assert NewId(prefix, m)[|prefix|..] == Decimal.PadStart(Decimal.Print(m), 3);
    assert NewId(prefix, n)[|prefix|..] == Decimal.PadStart(Decimal.Print(n), 3);
    Decimal.PadInjective(m, n, 3);
  }

  /** The used ids that a search from n on can still meet. */
  ghost function Ahead(used: set<string>, prefix: string, n: nat): set<string> {
    set id | id in used && exists m: nat :: m >= n && id == NewId(prefix, m)
  }

  /** A used id is met once, so the search comes closer to its end. */
  lemma AheadShrinks(used: set<string>, prefix: string, n: nat)
    requires NewId(prefix, n) in used
    ensures Ahead(used, prefix, n + 1) < Ahead(used, prefix, n)
  {
    var id := NewId(prefix, n);
    assert id in Ahead(used, prefix, n);
    if id in Ahead(used, prefix, n + 1) {
      var m: nat :| m >= n + 1 && id == NewId(prefix, m);
      NewIdsDiffer(prefix, m, n);
    }
  }

  function FirstFree(used: set<string>, prefix: string, n: nat): (id: string)
    ensures id !in used
    ensures exists m: nat :: m >= n && id == NewId(prefix, m) && forall k: nat :: n <= k < m ==> NewId(prefix, k) in used
    decreases Ahead(used, prefix, n)
  {
    if NewId(prefix, n) !in used then NewId(prefix, n)
    else
      AheadShrinks(used, prefix, n);
      FirstFree(used, prefix, n + 1)
  }

  /** managerChecklistUniqueId over the ids in use. */
  function UniqueId(ids: seq<string>, prefix: string): (id: string)
    ensures id !in ids
  {
    var used := set x | x in ids;
    FirstFree(used, prefix, |ids| + 1)
  }

  /** The prefix and the first number above how many ids there are that makes an unused id, in three digits or more. */
  lemma UniqueIdIsFirstFree(ids: seq<string>, prefix: string) returns (m: nat)
    ensures m > |ids| && UniqueId(ids, prefix) == prefix + Decimal.PadStart(Decimal.Print(m), 3)
    ensures forall k: nat :: |ids| < k < m ==> prefix + Decimal.PadStart(Decimal.Print(k), 3) in ids
  {
    var used := set x | x in ids;
    var id := FirstFree(used, prefix, |ids| + 1);
    m :| m >= |ids| + 1 && id == NewId(prefix, m) && forall k: nat :: |ids| + 1 <= k < m ==> NewId(prefix, k) in used;
    forall k: nat | |ids| < k < m
      ensures prefix + Decimal.PadStart(Decimal.Print(k), 3) in ids
    {
      assert NewId(prefix, k) in used;
    }
  }

  /** The loop as written: count up from the number of items until the id is free. */
  method FindUniqueId(ids: seq<string>, prefix: string) returns (id: string)
    ensures id == UniqueId(ids, prefix)
    ensures id !in ids
  {
    hide NewId, Ahead;
    ghost var used := set x | x in ids;
    var next := |ids| + 1;
    id := NewId(prefix, next);
    while id in ids
      invariant next >= |ids| + 1
      invariant id == NewId(prefix, next)
      invariant FirstFree(used, prefix, next) == UniqueId(ids, prefix)
      decreases Ahead(used, prefix, next)
    {
      AheadShrinks(used, prefix, next);
      next := next + 1;
      id := NewId(prefix, next);
    }
  }
}
