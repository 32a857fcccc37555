/**
 * The lazy view-type registry shared by both adapter versions: a layout id seen for the
 * first time gets the next integer code from a counter, and the pair is recorded in two
 * maps (layout id -> code and code -> layout id). Later lookups return the cached code.
 */
module ViewTypes {

  /** Reserved codes of the auxiliary slots. */
  const HEADER: int := 0x0010
  const EMPTY_VIEW: int := 0x0011
  const LOADING_VIEW: int := 0x0012

  /** The counter's value before any layout id has been seen. */
  const INITIAL_COUNTER: int := 0x0107

  /**
   * The registry's state: `viewTypeMap` sends a layout id to its code, `layoutIdMap` sends a
   * code back to its layout id, and `counter` is the last code handed out.
   */
  datatype Registry = Registry(viewTypeMap: map<int, int>, layoutIdMap: map<int, int>, counter: int)

  /** The registry of a freshly constructed adapter. */
  const Initial: Registry := Registry(map[], map[], INITIAL_COUNTER)

  /**
   * The registry invariant: the two maps are mutual inverses, and the codes in use are
   * exactly INITIAL_COUNTER + 1 .. counter.
   */
  ghost predicate Valid(r: Registry)
  {
    && r.counter >= INITIAL_COUNTER
    && (forall id :: id in r.viewTypeMap ==>
          r.viewTypeMap[id] in r.layoutIdMap && r.layoutIdMap[r.viewTypeMap[id]] == id)
    && (forall c :: c in r.layoutIdMap ==>
          r.layoutIdMap[c] in r.viewTypeMap && r.viewTypeMap[r.layoutIdMap[c]] == c)
    && (forall c :: c in r.layoutIdMap <==> INITIAL_COUNTER < c <= r.counter)
  }

  /** `r2` keeps every binding of `r1` and its counter has not gone back. */
  ghost predicate Extends(r1: Registry, r2: Registry)
  {
    && r1.counter <= r2.counter
    && (forall id :: id in r1.viewTypeMap ==>
          id in r2.viewTypeMap && r2.viewTypeMap[id] == r1.viewTypeMap[id])
    && (forall c :: c in r1.layoutIdMap ==>
          c in r2.layoutIdMap && r2.layoutIdMap[c] == r1.layoutIdMap[c])
  }

  /** A code that can never be mistaken for one of the auxiliary slots. */
  predicate IsItemCode(code: int)
  {
    code > INITIAL_COUNTER
  }

  lemma InitialValid()
    ensures Valid(Initial)
  {
  }

  /** No item code coincides with a reserved slot code. */
  lemma ItemCodesAreNotReserved(r: Registry)
    requires Valid(r)
    ensures HEADER !in r.layoutIdMap && EMPTY_VIEW !in r.layoutIdMap && LOADING_VIEW !in r.layoutIdMap
    ensures forall id :: id in r.viewTypeMap ==> IsItemCode(r.viewTypeMap[id])
  {
  }

  /** A bound layout id's code is recorded in the reverse map, at most the counter. */
  lemma ValidCode(r: Registry, id: int)
    requires Valid(r) && id in r.viewTypeMap
    ensures r.viewTypeMap[id] in r.layoutIdMap && r.layoutIdMap[r.viewTypeMap[id]] == id
    ensures IsItemCode(r.viewTypeMap[id]) && r.viewTypeMap[id] <= r.counter
  {
  }

  /**
   * Resolving one layout id: the code it gets and the registry afterwards. The id ends up
   * bound to the returned code; a known id leaves the registry as it was, and an unknown
   * one receives the counter's next value.
   */
  function Resolve(r: Registry, layoutId: int): (res: (int, Registry))
    ensures layoutId in res.1.viewTypeMap && res.1.viewTypeMap[layoutId] == res.0
    ensures layoutId in r.viewTypeMap ==> res.1 == r
    ensures layoutId !in r.viewTypeMap ==> res.0 == r.counter + 1 == res.1.counter
  {
    if layoutId in r.viewTypeMap then
      (r.viewTypeMap[layoutId], r)
    else
      var code := r.counter + 1;
      (code, Registry(r.viewTypeMap[layoutId := code], r.layoutIdMap[code := layoutId], code))
  }

  /**
   * Resolving keeps the registry invariant: the code is recorded in both directions, is an
   * item code (never a reserved slot code), and nothing already recorded changes.
   */
  lemma ResolveKeepsValid(r: Registry, layoutId: int)
    requires Valid(r)
    ensures Valid(Resolve(r, layoutId).1) && Extends(r, Resolve(r, layoutId).1)
    ensures Resolve(r, layoutId).0 in Resolve(r, layoutId).1.layoutIdMap
    ensures Resolve(r, layoutId).1.layoutIdMap[Resolve(r, layoutId).0] == layoutId
    ensures IsItemCode(Resolve(r, layoutId).0)
  {
  }

  /** The first layout id a fresh adapter sees gets code 0x0108. */
  lemma FirstCode(layoutId: int)
    ensures Resolve(Initial, layoutId).0 == 0x0108
  {
  }

  /** Resolving the same layout id again returns the same code and changes nothing. */
  lemma ResolveIdempotent(r: Registry, layoutId: int)
    ensures Resolve(Resolve(r, layoutId).1, layoutId) == Resolve(r, layoutId)
  {
  }

  /**
   * A pass of lookups over `ids` in order (one `getItemViewType` call per position):
   * the codes returned and the final registry.
   */
  function ResolveAll(r: Registry, ids: seq<int>): (res: (seq<int>, Registry))
    ensures |res.0| == |ids|
    decreases |ids|
  {
    if |ids| == 0 then
      ([], r)
    else
      var prior := ResolveAll(r, ids[..|ids| - 1]);
      var step := Resolve(prior.1, ids[|ids| - 1]);
      (prior.0 + [step.0], step.1)
  }

  /** A pass keeps the registry invariant and every earlier binding. */
  lemma {:induction false} ResolveAllKeepsValid(r: Registry, ids: seq<int>)
    requires Valid(r)
    ensures Valid(ResolveAll(r, ids).1) && Extends(r, ResolveAll(r, ids).1)
  {
    if |ids| > 0 {
      var n := |ids| - 1;
      ResolveAllKeepsValid(r, ids[..n]);
      ResolveKeepsValid(ResolveAll(r, ids[..n]).1, ids[n]);
    }
  }

  /** After a pass, every id looked up is bound to the code the pass returned for it. */
  lemma {:induction false} ResolveAllBinds(r: Registry, ids: seq<int>)
    ensures forall i :: 0 <= i < |ids| ==>
      ids[i] in ResolveAll(r, ids).1.viewTypeMap &&
      ResolveAll(r, ids).1.viewTypeMap[ids[i]] == ResolveAll(r, ids).0[i]
  {
    if |ids| > 0 {
      var n := |ids| - 1;
      var prefix := ids[..n];
      ResolveAllBinds(r, prefix);
      var prior := ResolveAll(r, prefix);
      var step := Resolve(prior.1, ids[n]);
      assert ResolveAll(r, ids) == (prior.0 + [step.0], step.1);
      forall i | 0 <= i < |ids|
        ensures ids[i] in step.1.viewTypeMap && step.1.viewTypeMap[ids[i]] == (prior.0 + [step.0])[i]
      {
        if i < n {
          assert prefix[i] == ids[i];
        }
      }
    }
  }

  /** A pass binds no layout id that was unbound before and that it did not look up. */
  lemma {:induction false} ResolveAllUnbound(r: Registry, ids: seq<int>, id: int)
    requires id !in r.viewTypeMap && id !in ids
    ensures id !in ResolveAll(r, ids).1.viewTypeMap
  {
    if |ids| > 0 {
      var n := |ids| - 1;
      assert ids == ids[..n] + [ids[n]];
      ResolveAllUnbound(r, ids[..n], id);
    }
  }

  /** The codes of a pass over a prefix are the prefix of the pass's codes. */
  lemma {:induction false} ResolveAllPrefix(r: Registry, ids: seq<int>, k: nat)
    requires k <= |ids|
    ensures ResolveAll(r, ids[..k]).0 == ResolveAll(r, ids).0[..k]
    decreases |ids|
  {
    if k < |ids| {
      var n := |ids| - 1;
      ResolveAllPrefix(r, ids[..n], k);
      assert ids[..n][..k] == ids[..k];
    } else {
      assert ids[..k] == ids;
    }
  }

  /**
   * Within a pass, two lookups return the same code exactly when they were for the same
   * layout id: the registry is a bijection between layout ids and codes.
   */
  lemma {:induction false} ResolveAllConsistent(r: Registry, ids: seq<int>)
    requires Valid(r)
    ensures forall i, j :: 0 <= i < |ids| && 0 <= j < |ids| ==>
      (ResolveAll(r, ids).0[i] == ResolveAll(r, ids).0[j] <==> ids[i] == ids[j])
  {
    ResolveAllBinds(r, ids);
    ResolveAllKeepsValid(r, ids);
    var res := ResolveAll(r, ids);
    forall i, j | 0 <= i < |ids| && 0 <= j < |ids| && res.0[i] == res.0[j]
      ensures ids[i] == ids[j]
    {
      ValidCode(res.1, ids[i]);
      ValidCode(res.1, ids[j]);
    }
  }

  /** The code a pass returns at index `j` is the one resolved against the registry the pass had reached. */
  lemma {:induction false} ResolveAllAt(r: Registry, ids: seq<int>, j: nat)
    requires j < |ids|
    ensures ResolveAll(r, ids).0[j] == Resolve(ResolveAll(r, ids[..j]).1, ids[j]).0
  {
    ResolveAllPrefix(r, ids, j + 1);
    assert ids[..j + 1][..j] == ids[..j];
    assert ids[..j + 1][j] == ids[j];
  }

  /** Every code a pass returns is at most the counter it ends with. */
  lemma {:induction false} ResolveAllBelowCounter(r: Registry, ids: seq<int>)
    requires Valid(r)
    ensures forall i :: 0 <= i < |ids| ==> ResolveAll(r, ids).0[i] <= ResolveAll(r, ids).1.counter
  {
    ResolveAllBinds(r, ids);
    ResolveAllKeepsValid(r, ids);
    var res := ResolveAll(r, ids);
    forall i | 0 <= i < |ids| ensures res.0[i] <= res.1.counter {
      ValidCode(res.1, ids[i]);
    }
  }

  /**
   * A layout id met for the first time in a pass (and unknown before it) gets a code above
   * the counter the pass started from and above every code returned earlier in the pass:
   * allocated codes strictly increase.
   */
  lemma {:induction false} ResolveAllFreshIncreasing(r: Registry, ids: seq<int>, j: nat)
    requires Valid(r) && j < |ids|
    requires ids[j] !in r.viewTypeMap && ids[j] !in ids[..j]
    ensures ResolveAll(r, ids).0[j] > r.counter
    ensures forall i :: 0 <= i < j ==> ResolveAll(r, ids).0[i] < ResolveAll(r, ids).0[j]
  {
    var prefix := ids[..j];
    var prior := ResolveAll(r, prefix);
    ResolveAllUnbound(r, prefix, ids[j]);
    ResolveAllAt(r, ids, j);
    ResolveAllKeepsValid(r, prefix);
    ResolveAllBelowCounter(r, prefix);
    ResolveAllPrefix(r, ids, j);
    forall i | 0 <= i < j
      ensures ResolveAll(r, ids).0[i] == prior.0[i]
    {
    }
  }
}
