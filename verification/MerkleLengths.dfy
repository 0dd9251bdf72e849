/** What a Merkle root fixes when the two lists need not have one length. */
module MerkleLengths {
  import opened Basics
  import opened Merkle

  /** The nodes `d` rounds above the leaves. */
  ghost function Above<T>(node: (T, T) -> T, xs: seq<T>, d: nat): (up: seq<T>)
    requires xs != []
    ensures up != []
    decreases d
  {
    if d == 0 then xs else Above(node, Level(node, xs), d - 1)
  }

  lemma {:induction false} AboveKeepsRoot<T>(node: (T, T) -> T, xs: seq<T>, d: nat)
    requires xs != [] && d <= Height(|xs|)
    ensures Height(|Above(node, xs, d)|) == Height(|xs|) - d
    ensures Root(node, Above(node, xs, d)) == Root(node, xs)
    decreases d
  {
    if d > 0 {
      LevelKeepsRoot(node, xs);
      HeightOfHalf(|xs|);
      AboveKeepsRoot(node, Level(node, xs), d - 1);
    }
  }

  /** The list filled up to the full width as the loop does: a part that fits in half is repeated. */
  function Fill<T>(xs: seq<T>, h: nat): (full: seq<T>)
    requires 1 <= |xs| <= Pow2(h)
    ensures |full| == Pow2(h)
    decreases h
  {
    if h == 0 then xs
    else
      var half := Pow2(h - 1);
      if |xs| <= half then Fill(xs, h - 1) + Fill(xs, h - 1)
      else Fill(xs[..half], h - 1) + Fill(xs[half..], h - 1)
  }

  /** The leaves of a tree, left to right. */
  function LeavesOf<T>(t: Shape<T>): seq<T> {
    match t
    case Leaf(x) => [x]
    case Branch(l, r) => LeavesOf(l) + LeavesOf(r)
  }

  lemma {:induction false} FillIsLeaves<T>(xs: seq<T>, h: nat)
    requires 1 <= |xs| <= Pow2(h)
    ensures LeavesOf(Build(xs, h)) == Fill(xs, h)
    decreases h
  {
    if h > 0 {
      var half := Pow2(h - 1);
      if |xs| <= half {
        FillIsLeaves(xs, h - 1);
      } else {
        FillIsLeaves(xs[..half], h - 1);
        FillIsLeaves(xs[half..], h - 1);
      }
    }
  }

  lemma {:induction false} PerfectLeaves<T>(t: Shape<T>, h: nat)
    requires Perfect(t, h)
    ensures |LeavesOf(t)| == Pow2(h)
    decreases h
  {
    if h > 0 {
      PerfectLeaves(t.left, h - 1);
      PerfectLeaves(t.right, h - 1);
    }
  }

  lemma {:induction false} LeavesFixTree<T>(s: Shape<T>, t: Shape<T>, h: nat)
    requires Perfect(s, h) && Perfect(t, h) && LeavesOf(s) == LeavesOf(t)
    ensures s == t
    decreases h
  {
    if h > 0 {
      PerfectLeaves(s.left, h - 1);
      PerfectLeaves(t.left, h - 1);
      assert LeavesOf(s.left) == LeavesOf(s)[..Pow2(h - 1)] && LeavesOf(t.left) == LeavesOf(t)[..Pow2(h - 1)];
      assert LeavesOf(s.right) == LeavesOf(s)[Pow2(h - 1)..] && LeavesOf(t.right) == LeavesOf(t)[Pow2(h - 1)..];
      LeavesFixTree(s.left, t.left, h - 1);
      LeavesFixTree(s.right, t.right, h - 1);
    }
  }

  lemma FillFixesTree<T(!new)>(node: (T, T) -> T, xs: seq<T>, ys: seq<T>, h: nat, pairs: set<(T, T)>)
    requires 1 <= |xs| <= Pow2(h) && 1 <= |ys| <= Pow2(h) && InjectiveOn(node, pairs)
    requires Inputs(node, Build(xs, h)) <= pairs && Inputs(node, Build(ys, h)) <= pairs
    ensures TreeRoot(node, xs, h) == TreeRoot(node, ys, h) <==> Fill(xs, h) == Fill(ys, h)
  {
    BuildIsPerfect(xs, h);
    BuildIsPerfect(ys, h);
    TreeBinds(node, Build(xs, h), Build(ys, h), h, pairs);
    FillIsLeaves(xs, h);
    FillIsLeaves(ys, h);
    if Fill(xs, h) == Fill(ys, h) {
      LeavesFixTree(Build(xs, h), Build(ys, h), h);
    }
  }

  /** A list filled up to the width of its tree. */
  function Filled<T>(xs: seq<T>): seq<T>
    requires xs != []
  {
    Fill(xs, Height(|xs|))
  }

  lemma FillFixesRoot<T(!new)>(node: (T, T) -> T, xs: seq<T>, ys: seq<T>)
    requires xs != [] && ys != [] && Height(|xs|) == Height(|ys|)
    requires InjectiveOn(node, RootInputs(node, xs) + RootInputs(node, ys))
    ensures Root(node, xs) == Root(node, ys) <==> Filled(xs) == Filled(ys)
  {
    FillFixesTree(node, xs, ys, Height(|xs|), RootInputs(node, xs) + RootInputs(node, ys));
  }

  /** What a root does fix, for lists of any two lengths: it is shared exactly when the shorter list, filled
      up, is the filled-up level of the longer list that lies at its height. */
  lemma RootBindsAcross<T(!new)>(node: (T, T) -> T, xs: seq<T>, ys: seq<T>, d: nat)
    requires xs != [] && ys != [] && Height(|xs|) == Height(|ys|) + d
    requires InjectiveOn(node, RootInputs(node, Above(node, xs, d)) + RootInputs(node, ys))
    ensures Root(node, xs) == Root(node, ys) <==> Filled(Above(node, xs, d)) == Filled(ys)
  {
    AboveKeepsRoot(node, xs, d);
    FillFixesRoot(node, Above(node, xs, d), ys);
  }

  // ----- lists without repetition -----

  /** Filling up starts with the list itself and adds nothing new. */
  lemma {:induction false} FillStarts<T>(xs: seq<T>, h: nat)
    requires 1 <= |xs| <= Pow2(h)
    ensures xs <= Fill(xs, h) && forall x :: x in Fill(xs, h) ==> x in xs
    decreases h
  {
    if h > 0 {
      var half := Pow2(h - 1);
      if |xs| <= half {
        FillStarts(xs, h - 1);
        assert Fill(xs, h) == Fill(xs, h - 1) + Fill(xs, h - 1);
      } else {
        FillStarts(xs[..half], h - 1);
        FillStarts(xs[half..], h - 1);
        JoinStarts(xs, xs[..half], xs[half..], Fill(xs[..half], h - 1), Fill(xs[half..], h - 1));
      }
    }
  }

  lemma JoinStarts<T>(xs: seq<T>, l: seq<T>, r: seq<T>, left: seq<T>, right: seq<T>)
    requires xs == l + r && l == left && r <= right
    requires forall x :: x in right ==> x in r
    ensures xs <= left + right && forall x :: x in left + right ==> x in xs
  {
  }

  lemma LongerRepeats<T>(full: seq<T>, xs: seq<T>, ys: seq<T>)
    requires xs <= full && ys <= full && |xs| < |ys|
    requires forall x :: x in full ==> x in xs
    ensures !Distinct(ys)
  {
    assert full[|xs|] in full && ys[|xs|] == full[|xs|];
    var i :| 0 <= i < |xs| && xs[i] == full[|xs|];
    assert ys[i] == ys[|xs|];
  }

  lemma DistinctFill<T>(xs: seq<T>, ys: seq<T>, h: nat)
    requires 1 <= |xs| <= Pow2(h) && 1 <= |ys| <= Pow2(h) && Distinct(xs) && Distinct(ys)
    ensures Fill(xs, h) == Fill(ys, h) <==> xs == ys
  {
    if Fill(xs, h) == Fill(ys, h) {
      FillStarts(xs, h);
      FillStarts(ys, h);
      if |xs| < |ys| {
        LongerRepeats(Fill(xs, h), xs, ys);
      } else if |ys| < |xs| {
        LongerRepeats(Fill(xs, h), ys, xs);
      }
    }
  }

  /** No value of the node function on these pairs is one of these leaves. */
  ghost predicate Apart<T(!new)>(node: (T, T) -> T, pairs: set<(T, T)>, xs: seq<T>) {
    forall p, x :: p in pairs && x in xs ==> node(p.0, p.1) != x
  }

  /** Then a tree never evaluates to the same as a lower one. */
  lemma {:induction false} HeightsDiffer<T(!new)>(node: (T, T) -> T, s: Shape<T>, t: Shape<T>, hs: nat, ht: nat,
                                                  pairs: set<(T, T)>)
    requires Perfect(s, hs) && Perfect(t, ht) && hs > ht
    requires Inputs(node, s) <= pairs && Inputs(node, t) <= pairs && InjectiveOn(node, pairs)
    requires Apart(node, pairs, LeavesOf(t))
    ensures Eval(node, s) != Eval(node, t)
    decreases ht
  {
    assert (Eval(node, s.left), Eval(node, s.right)) in pairs;
    if ht == 0 {
      assert t.value in LeavesOf(t);
    } else {
      assert (Eval(node, t.left), Eval(node, t.right)) in pairs;
      assert forall x :: x in LeavesOf(t.left) ==> x in LeavesOf(t);
      HeightsDiffer(node, s.left, t.left, hs - 1, ht - 1, pairs);
    }
  }

  lemma LowerRootDiffers<T(!new)>(node: (T, T) -> T, xs: seq<T>, ys: seq<T>, pairs: set<(T, T)>)
    requires xs != [] && ys != [] && Height(|xs|) > Height(|ys|) && InjectiveOn(node, pairs)
    requires RootInputs(node, xs) <= pairs && RootInputs(node, ys) <= pairs && Apart(node, pairs, ys)
    ensures Root(node, xs) != Root(node, ys)
  {
    var (g, h) := (Height(|xs|), Height(|ys|));
    BuildIsPerfect(xs, g);
    BuildIsPerfect(ys, h);
    FillIsLeaves(ys, h);
    FillStarts(ys, h);
    HeightsDiffer(node, Build(xs, g), Build(ys, h), g, h, pairs);
  }

  /** Lists without repetition, of any two lengths: equal roots exactly when equal lists, as long as the node
      function does not collide on their trees and, if those differ in height, does not yield a leaf. */
  lemma DistinctRootBinds<T(!new)>(node: (T, T) -> T, xs: seq<T>, ys: seq<T>, pairs: set<(T, T)>)
    requires xs != [] && ys != [] && Distinct(xs) && Distinct(ys)
    requires pairs == RootInputs(node, xs) + RootInputs(node, ys) && InjectiveOn(node, pairs)
    requires Height(|xs|) == Height(|ys|) || (Apart(node, pairs, xs) && Apart(node, pairs, ys))
    ensures Root(node, xs) == Root(node, ys) <==> xs == ys
  {
    if Height(|xs|) == Height(|ys|) {
      FillFixesRoot(node, xs, ys);
      DistinctFill(xs, ys, Height(|xs|));
    } else if Height(|xs|) > Height(|ys|) {
      LowerRootDiffers(node, xs, ys, pairs);
    } else {
      LowerRootDiffers(node, ys, xs, pairs);
    }
  }
}
