/**
 Authorization trees: `walkInvocation` and `parseAuthTree` of indexer/src/authTreeParser.js.
 Signers and function scopes carry the text that the Stellar SDK prints for them.
 */
module AuthTree {

  datatype Invocation = Invocation(scope: string, subs: seq<Invocation>)

  /** One line of the flattened tree. */
  datatype Line = Line(depth: nat, scope: string)

  function Walk(t: Invocation, depth: nat): seq<Line>
    decreases t, 1
  {
    [Line(depth, t.scope)] + WalkAll(t.subs, depth + 1)
  }

  function WalkAll(ts: seq<Invocation>, depth: nat): seq<Line>
    decreases ts, 0
  {
    if ts == [] then [] else Walk(ts[0], depth) + WalkAll(ts[1..], depth)
  }

  lemma {:induction false} WalkAllSnoc(ts: seq<Invocation>, t: Invocation, depth: nat)
    ensures WalkAll(ts + [t], depth) == WalkAll(ts, depth) + Walk(t, depth)
  {
    hide Walk;
    if ts == [] {
      assert [] + [t] == [t] && [t][1..] == [];
      assert Walk(t, depth) + [] == Walk(t, depth);
    } else {
      WalkAllSnoc(ts[1..], t, depth);
      assert (ts + [t])[1..] == ts[1..] + [t];
    }
  }

  method WalkInvocation(t: Invocation, depth: nat) returns (result: seq<Line>)
    ensures result == Walk(t, depth)
    decreases t
  {
    result := [Line(depth, t.scope)];
    for i := 0 to |t.subs|
      invariant result == [Line(depth, t.scope)] + WalkAll(t.subs[..i], depth + 1)
    {
      var sub := WalkInvocation(t.subs[i], depth + 1);
      WalkAllSnoc(t.subs[..i], t.subs[i], depth + 1);
      assert t.subs[..i + 1] == t.subs[..i] + [t.subs[i]];
      result := result + sub;
    }
    assert t.subs[..|t.subs|] == t.subs;
  }

  /* ----- rebuilding the tree ----- */

  /** The length of the run of lines deeper than `depth` at the start of the list. */
  function Deeper(lines: seq<Line>, depth: nat): (n: nat)
    ensures n <= |lines|
    ensures forall i :: 0 <= i < n ==> lines[i].depth > depth
    ensures n < |lines| ==> lines[n].depth <= depth
  {
    if lines == [] || lines[0].depth <= depth then 0 else 1 + Deeper(lines[1..], depth)
  }

  /** Reads a list of lines as a forest: every line owns the deeper ones that follow it. */
  function Rebuild(lines: seq<Line>): seq<Invocation>
    decreases |lines|
  {
    if lines == [] then []
    else
      var n := Deeper(lines[1..], lines[0].depth);
      [Invocation(lines[0].scope, Rebuild(lines[1..1 + n]))] + Rebuild(lines[1 + n..])
  }

  lemma {:induction false} WalkDepths(t: Invocation, depth: nat)
    ensures var w := Walk(t, depth);
            w != [] && w[0] == Line(depth, t.scope) && forall i :: 1 <= i < |w| ==> w[i].depth > depth
    decreases t, 1
  {
    WalkAllDepths(t.subs, depth + 1);
  }

  lemma {:induction false} WalkAllDepths(ts: seq<Invocation>, depth: nat)
    ensures var w := WalkAll(ts, depth);
            (forall i :: 0 <= i < |w| ==> w[i].depth >= depth) && (w != [] ==> w[0].depth == depth)
    decreases ts, 0
  {
    hide Walk;
    if ts != [] {
      WalkDepths(ts[0], depth);
      WalkAllDepths(ts[1..], depth);
    }
  }

  /** The list of a forest begins with the first root, then the lists of its children and of its siblings. */
  lemma WalkAllUnfold(ts: seq<Invocation>, depth: nat)
    requires ts != []
    ensures WalkAll(ts, depth)
         == ([Line(depth, ts[0].scope)] + WalkAll(ts[0].subs, depth + 1)) + WalkAll(ts[1..], depth)
  {
    assert WalkAll(ts, depth) == Walk(ts[0], depth) + WalkAll(ts[1..], depth);
  }

  lemma RebuildUnfold(line: Line, inner: seq<Line>, after: seq<Line>)
    requires Deeper(inner + after, line.depth) == |inner|
    ensures Rebuild(([line] + inner) + after) == [Invocation(line.scope, Rebuild(inner))] + Rebuild(after)
  {
    hide Deeper;
    var lines := ([line] + inner) + after;
    assert lines[0] == line;
    assert lines[1..] == inner + after;
    assert lines[1..1 + |inner|] == inner && lines[1 + |inner|..] == after;
  }

  lemma RebuildStep(ts: seq<Invocation>, depth: nat)
    requires ts != []
    requires Rebuild(WalkAll(ts[0].subs, depth + 1)) == ts[0].subs
    requires Rebuild(WalkAll(ts[1..], depth)) == ts[1..]
    ensures Rebuild(WalkAll(ts, depth)) == ts
  {
    hide WalkAll, Walk, Rebuild, Deeper;
    var inner, after := WalkAll(ts[0].subs, depth + 1), WalkAll(ts[1..], depth);
    WalkAllUnfold(ts, depth);
    WalkAllDepths(ts[0].subs, depth + 1);
    WalkAllDepths(ts[1..], depth);
    DeeperIs(inner, after, depth);
    RebuildUnfold(Line(depth, ts[0].scope), inner, after);
  }

  /** The flattened list determines the forest: rebuilding inverts walking, at every starting depth. */
  lemma {:induction false} RebuildWalkAll(ts: seq<Invocation>, depth: nat)
    ensures Rebuild(WalkAll(ts, depth)) == ts
    decreases ts
  {
    if ts == [] {
      assert WalkAll(ts, depth) == [];
    } else {
      hide WalkAll, Walk, Rebuild;
      RebuildWalkAll(ts[0].subs, depth + 1);
      RebuildWalkAll(ts[1..], depth);
      RebuildStep(ts, depth);
    }
  }

  lemma {:induction false} DeeperIs(inner: seq<Line>, after: seq<Line>, depth: nat)
    requires forall i :: 0 <= i < |inner| ==> inner[i].depth > depth
    requires after != [] ==> after[0].depth <= depth
    ensures Deeper(inner + after, depth) == |inner|
  {
    if inner == [] {
      assert inner + after == after;
    } else {
      assert (inner + after)[1..] == inner[1..] + after;
      DeeperIs(inner[1..], after, depth);
    }
  }

  /** Different trees have different lists. */
  lemma WalkInjective(s: Invocation, t: Invocation, depth: nat)
    requires Walk(s, depth) == Walk(t, depth)
    ensures s == t
  {
    hide Walk;
    RebuildWalkAll([s], depth);
    RebuildWalkAll([t], depth);
    WalkOne(s, depth);
    WalkOne(t, depth);
    assert [s][0] == [t][0];
  }

  lemma WalkOne(t: Invocation, depth: nat)
    ensures WalkAll([t], depth) == Walk(t, depth)
  {
    hide Walk;
    assert WalkAll([t][1..], depth) == [];
    assert Walk(t, depth) + [] == Walk(t, depth);
  }

  /** Depths go up one at a time: a line lies at most one deeper than the line before it. */
  ghost predicate ByOnes(lines: seq<Line>) {
    forall i :: 1 <= i < |lines| ==> lines[i].depth <= lines[i - 1].depth + 1
  }

  lemma ByOnesConcat(a: seq<Line>, b: seq<Line>, depth: nat)
    requires ByOnes(a) && ByOnes(b)
    requires b != [] ==> b[0].depth == depth + 1
    requires forall i :: 0 <= i < |a| ==> a[i].depth >= depth
    ensures ByOnes(a + b)
  {
  }

  lemma {:induction false} WalkByOnes(t: Invocation, depth: nat)
    ensures ByOnes(Walk(t, depth))
    decreases t, 1
  {
    WalkAllByOnes(t.subs, depth + 1);
    WalkAllDepths(t.subs, depth + 1);
    ByOnesConcat([Line(depth, t.scope)], WalkAll(t.subs, depth + 1), depth);
  }

  lemma {:induction false} WalkAllByOnes(ts: seq<Invocation>, depth: nat)
    requires depth > 0
    ensures ByOnes(WalkAll(ts, depth))
    decreases ts, 0
  {
    hide Walk, ByOnes;
    if ts == [] {
      assert ByOnes([]) by { NoLines(); }
    } else {
      WalkByOnes(ts[0], depth);
      WalkDepths(ts[0], depth);
      WalkAllByOnes(ts[1..], depth);
      WalkAllDepths(ts[1..], depth);
      ByOnesConcat(Walk(ts[0], depth), WalkAll(ts[1..], depth), depth - 1);
    }
  }

  lemma NoLines()
    ensures ByOnes([])
  {
  }

  /* ----- whole transactions ----- */

  datatype AuthEntry = AuthEntry(signer: string, root: Invocation)

  datatype Layer = Layer(signer: string, invocations: seq<Line>)

  /** The root stands at depth 0, everything else deeper, and a child one deeper than its parent. */
  ghost predicate FromRoot(lines: seq<Line>, root: Invocation) {
    && lines != [] && lines[0] == Line(0, root.scope)
    && (forall i :: 1 <= i < |lines| ==> lines[i].depth > 0)
    && ByOnes(lines)
  }

  lemma WalkFromRoot(root: Invocation)
    ensures FromRoot(Walk(root, 0), root)
  {
    WalkDepths(root, 0);
    WalkByOnes(root, 0);
    hide Walk, ByOnes;
  }

  method ParseAuthTree(entries: seq<AuthEntry>) returns (layers: seq<Layer>)
    ensures |layers| == |entries|
    ensures forall i :: 0 <= i < |entries| ==>
              layers[i].signer == entries[i].signer && Rebuild(layers[i].invocations) == [entries[i].root]
    ensures forall i :: 0 <= i < |entries| ==> FromRoot(layers[i].invocations, entries[i].root)
  {
    hide FromRoot;
    layers := [];
    for i := 0 to |entries|
      invariant |layers| == i
      invariant forall j :: 0 <= j < i ==>
                  layers[j].signer == entries[j].signer && Rebuild(layers[j].invocations) == [entries[j].root]
      invariant forall j :: 0 <= j < i ==> FromRoot(layers[j].invocations, entries[j].root)
    {
      var invocations := WalkInvocation(entries[i].root, 0);
      WalkOne(entries[i].root, 0);
      RebuildWalkAll([entries[i].root], 0);
      WalkFromRoot(entries[i].root);
      layers := layers + [Layer(entries[i].signer, invocations)];
    }
  }
}
