/** Named virtual workspaces and the meaning of merging lists of them:
    the lists are concatenated in order, and the merge fails on the first
    workspace, in scan order, whose name was already used. */
module Workspaces {
  import opened Wrappers

  /** A virtual workspace mounted under `name`; what it serves is opaque here. */
  datatype NamedVirtualWorkspace<V> = NamedVirtualWorkspace(name: string, workspace: V)

  /** Errors of this layer: a repeated mount name, or an error handed back
      unchanged from a workspace builder. */
  datatype Error =
    | DuplicateVirtualWorkspace(name: string)
    | BuilderError(message: string)

  /** The names used by `ws`. */
  function NameSet<V>(ws: seq<NamedVirtualWorkspace<V>>): set<string>
  {
    set i | 0 <= i < |ws| :: ws[i].name
  }

  /** No two workspaces of `ws` share a name. */
  predicate NamesDistinct<V>(ws: seq<NamedVirtualWorkspace<V>>)
  {
    forall i, j | 0 <= i < j < |ws| :: ws[i].name != ws[j].name
  }

  /** Position `k` holds the first workspace, scanning from the front, whose
      name already occurred earlier in `ws`. */
  predicate IsFirstDuplicate<V>(ws: seq<NamedVirtualWorkspace<V>>, k: nat)
  {
    k < |ws| && NamesDistinct(ws[..k]) && ws[k].name in NameSet(ws[..k])
  }

  /** All lists of `sets` concatenated, in argument order and in list order. */
  function Flatten<V>(sets: seq<seq<NamedVirtualWorkspace<V>>>): seq<NamedVirtualWorkspace<V>>
  {
    if sets == [] then [] else Flatten(sets[..|sets| - 1]) + sets[|sets| - 1]
  }

  lemma NameSetSnoc<V>(ws: seq<NamedVirtualWorkspace<V>>, w: NamedVirtualWorkspace<V>)
    ensures NameSet(ws + [w]) == NameSet(ws) + {w.name}
  {
    var ext := ws + [w];
    assert forall i | 0 <= i < |ws| :: ext[i] == ws[i];
    assert ext[|ws|] == w;
  }

  /** Appending one workspace keeps the names distinct iff its name is new. */
  lemma DistinctSnoc<V>(ws: seq<NamedVirtualWorkspace<V>>, w: NamedVirtualWorkspace<V>)
    ensures NamesDistinct(ws + [w]) <==> NamesDistinct(ws) && w.name !in NameSet(ws)
  {
    var ext := ws + [w];
    assert forall i | 0 <= i < |ws| :: ext[i] == ws[i];
    if NamesDistinct(ext) {
      forall i | 0 <= i < |ws|
        ensures ws[i].name != w.name
      {
        assert ext[i].name != ext[|ws|].name;
      }
    }
  }

  /** There is at most one first duplicate. */
  lemma FirstDuplicateUnique<V>(ws: seq<NamedVirtualWorkspace<V>>, k1: nat, k2: nat)
    requires IsFirstDuplicate(ws, k1) && IsFirstDuplicate(ws, k2)
    ensures k1 == k2
  {
  }

  /** A sequence with a first duplicate does not have distinct names. */
  lemma FirstDuplicateBreaksDistinct<V>(ws: seq<NamedVirtualWorkspace<V>>, k: nat)
    requires IsFirstDuplicate(ws, k)
    ensures !NamesDistinct(ws)
  {
  }

  /** The position of the first repeated name, if any. */
  function FirstDuplicate<V>(ws: seq<NamedVirtualWorkspace<V>>): (k: Option<nat>)
    ensures k.None? <==> NamesDistinct(ws)
    ensures k.Some? ==> IsFirstDuplicate(ws, k.value)
    decreases |ws|
  {
    if |ws| == 0 then None
    else
      var init, last := ws[..|ws| - 1], ws[|ws| - 1];
      assert ws == init + [last];
      DistinctSnoc(init, last);
      match FirstDuplicate(init)
      case Some(k) =>
        assert ws[..k] == init[..k];
        Some(k)
      case None =>
        if last.name in NameSet(init) then Some(|ws| - 1) else None
  }

  /** What merging `sets` yields: their concatenation when every name is
      used once, otherwise the error naming the first repeated name. */
  function Merged<V>(sets: seq<seq<NamedVirtualWorkspace<V>>>): (r: Result<seq<NamedVirtualWorkspace<V>>, Error>)
    ensures r.Success? <==> NamesDistinct(Flatten(sets))
    ensures r.Success? ==> r.value == Flatten(sets)
    ensures r.Failure? ==>
      exists k: nat :: IsFirstDuplicate(Flatten(sets), k)
        && r.error == DuplicateVirtualWorkspace(Flatten(sets)[k].name)
  {
    var all := Flatten(sets);
    match FirstDuplicate(all)
    case None => Success(all)
    case Some(k) => Failure(DuplicateVirtualWorkspace(all[k].name))
  }

  /** Flattening distributes over concatenation of the argument lists. */
  lemma {:induction false} FlattenAppend<V>(a: seq<seq<NamedVirtualWorkspace<V>>>, b: seq<seq<NamedVirtualWorkspace<V>>>)
    ensures Flatten(a + b) == Flatten(a) + Flatten(b)
    decreases |b|
  {
    if b == [] {
      assert a + b == a;
    } else {
      var b' := b[..|b| - 1];
      assert (a + b)[..|a + b| - 1] == a + b';
      assert (a + b)[|a + b| - 1] == b[|b| - 1];
      FlattenAppend(a, b');
    }
  }

  /** Flattening two lists is their concatenation. */
  lemma FlattenPair<V>(a: seq<NamedVirtualWorkspace<V>>, b: seq<NamedVirtualWorkspace<V>>)
    ensures Flatten([a, b]) == a + b
  {
    assert [a, b][..1] == [a];
    assert [a][..0] == [];
    assert Flatten([a]) == a;
  }

  /** A workspace is in the flattening iff it is in one of the lists. */
  lemma {:induction false} FlattenMembership<V>(sets: seq<seq<NamedVirtualWorkspace<V>>>, w: NamedVirtualWorkspace<V>)
    ensures w in Flatten(sets) <==> exists i :: 0 <= i < |sets| && w in sets[i]
    decreases |sets|
  {
    if sets != [] {
      var init := sets[..|sets| - 1];
      FlattenMembership(init, w);
      assert forall i | 0 <= i < |init| :: init[i] == sets[i];
    }
  }

  /** A repeat inside the first lists fixes the result whatever follows. */
  lemma FirstDuplicateExtend<V>(ws: seq<NamedVirtualWorkspace<V>>, ext: seq<NamedVirtualWorkspace<V>>)
    requires FirstDuplicate(ws).Some?
    ensures FirstDuplicate(ws + ext) == FirstDuplicate(ws)
  {
    var k := FirstDuplicate(ws).value;
    var all := ws + ext;
    assert all[..k] == ws[..k];
    assert all[k] == ws[k];
    assert IsFirstDuplicate(all, k);
    FirstDuplicateBreaksDistinct(all, k);
    FirstDuplicateUnique(all, k, FirstDuplicate(all).value);
  }

  /** Merging nothing, or only empty lists, succeeds with the empty list. */
  lemma {:induction false} MergedAllEmpty<V>(sets: seq<seq<NamedVirtualWorkspace<V>>>)
    requires forall i | 0 <= i < |sets| :: sets[i] == []
    ensures Merged(sets) == Success([])
    decreases |sets|
  {
    if sets != [] {
      MergedAllEmpty(sets[..|sets| - 1]);
    }
  }

  /** Two lists with distinct names merge together iff their names are
      disjoint, and the result is the first followed by the second. */
  lemma DistinctConcat<V>(a: seq<NamedVirtualWorkspace<V>>, b: seq<NamedVirtualWorkspace<V>>)
    ensures NamesDistinct(a + b) <==> NamesDistinct(a) && NamesDistinct(b) && NameSet(a) !! NameSet(b)
  {
    var ab := a + b;
    assert forall i | 0 <= i < |a| :: ab[i] == a[i];
    assert forall i | 0 <= i < |b| :: ab[|a| + i] == b[i];
    if NamesDistinct(ab) {
      forall i, j | 0 <= i < j < |b|
        ensures b[i].name != b[j].name
      {
        assert ab[|a| + i].name != ab[|a| + j].name;
      }
      forall i, j | 0 <= i < |a| && 0 <= j < |b|
        ensures a[i].name != b[j].name
      {
        assert ab[i].name != ab[|a| + j].name;
      }
    }
    if NamesDistinct(a) && NamesDistinct(b) && NameSet(a) !! NameSet(b) {
      forall i, j | 0 <= i < j < |ab|
        ensures ab[i].name != ab[j].name
      {
        if j < |a| {
        } else if i < |a| {
          assert ab[i].name in NameSet(a);
          assert ab[j] == b[j - |a|];
          assert ab[j].name in NameSet(b);
        } else {
          assert ab[i] == b[i - |a|] && ab[j] == b[j - |a|];
        }
      }
    }
  }

  /** Merging two lists: success exactly when each is free of repeats and
      they share no name; the result is then their concatenation. */
  lemma MergedPair<V>(a: seq<NamedVirtualWorkspace<V>>, b: seq<NamedVirtualWorkspace<V>>)
    ensures Merged([a, b]).Success? <==>
      NamesDistinct(a) && NamesDistinct(b) && NameSet(a) !! NameSet(b)
    ensures Merged([a, b]).Success? ==> Merged([a, b]).value == a + b
  {
    FlattenPair(a, b);
    DistinctConcat(a, b);
  }

  /** Whether two lists merge does not depend on their order. */
  lemma MergedPairSymmetric<V>(a: seq<NamedVirtualWorkspace<V>>, b: seq<NamedVirtualWorkspace<V>>)
    ensures Merged([a, b]).Success? <==> Merged([b, a]).Success?
  {
    MergedPair(a, b);
    MergedPair(b, a);
  }

  /** Once the leading lists already repeat a name, appending more lists
      reports the same duplicate. */
  lemma MergedFailureExtends<V>(a: seq<seq<NamedVirtualWorkspace<V>>>, b: seq<seq<NamedVirtualWorkspace<V>>>)
    requires Merged(a).Failure?
    ensures Merged(a + b) == Merged(a)
  {
    FlattenAppend(a, b);
    FirstDuplicateExtend(Flatten(a), Flatten(b));
    var all := Flatten(a + b);
    var k := FirstDuplicate(Flatten(a)).value;
    assert all[k] == Flatten(a)[k];
  }

  /** Merging in two stages agrees with merging everything at once: if the
      whole merge succeeds, so do both halves, and merging their results
      gives the same list. */
  lemma MergedInStages<V>(a: seq<seq<NamedVirtualWorkspace<V>>>, b: seq<seq<NamedVirtualWorkspace<V>>>)
    requires Merged(a + b).Success?
    ensures Merged(a).Success? && Merged(b).Success?
    ensures Merged([Merged(a).value, Merged(b).value]) == Merged(a + b)
  {
    FlattenAppend(a, b);
    DistinctConcat(Flatten(a), Flatten(b));
    FlattenPair(Flatten(a), Flatten(b));
  }

  /** Two repeat-free lists that share exactly one name `n` fail to merge,
      and the error names `n`: the scan meets the shared name first at its
      position in the second list. */
  lemma SingleSharedNameRejected<V>(a: seq<NamedVirtualWorkspace<V>>, b: seq<NamedVirtualWorkspace<V>>, n: string)
    requires NamesDistinct(a) && NamesDistinct(b)
    requires NameSet(a) * NameSet(b) == {n}
    ensures Merged([a, b]) == Failure(DuplicateVirtualWorkspace(n))
  {
    FlattenPair(a, b);
    assert n in NameSet(b);
    var j :| 0 <= j < |b| && b[j].name == n;
    var front := b[..j];
    forall m | m in NameSet(front)
      ensures m !in NameSet(a)
    {
      var i :| 0 <= i < |front| && front[i].name == m;
      assert b[i] == front[i];
      assert b[i].name != b[j].name;
      assert m in NameSet(b) && m !in {n};
      assert m !in NameSet(a) * NameSet(b);
    }
    DistinctConcat(a, front);
    var all := a + b;
    var k := |a| + j;
    assert all[..k] == a + front;
    assert all[k] == b[j];
    var i0 :| 0 <= i0 < |a| && a[i0].name == n;
    assert (a + front)[i0] == a[i0];
    assert IsFirstDuplicate(all, k);
    FirstDuplicateBreaksDistinct(all, k);
    FirstDuplicateUnique(all, k, FirstDuplicate(all).value);
  }

  /** For example, two sets that both mount a workspace named "apiexport"
      cannot be composed. */
  lemma DuplicateApiexportRejected<V>(p: V, q: V, r: V)
    ensures Merged([
      [NamedVirtualWorkspace("apiexport", p)],
      [NamedVirtualWorkspace("initializingworkspaces", q), NamedVirtualWorkspace("apiexport", r)]
    ]) == Failure(DuplicateVirtualWorkspace("apiexport"))
  {
    var a := [NamedVirtualWorkspace("apiexport", p)];
    var b := [NamedVirtualWorkspace("initializingworkspaces", q), NamedVirtualWorkspace("apiexport", r)];
    assert NameSet(a) == {"apiexport"} by {
      assert a[0].name == "apiexport";
    }
    assert NameSet(b) == {"initializingworkspaces", "apiexport"} by {
      assert b[0].name == "initializingworkspaces" && b[1].name == "apiexport";
    }
    SingleSharedNameRejected(a, b, "apiexport");
  }
}
