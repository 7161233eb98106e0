/** What a verifying proof is worth when nothing is known of the hash: either the claimed entry is in
    the tree, or two different byte strings with the same digest can be written down. */
module MerkleSoundness {
  import opened Common
  import opened Bytes
  import opened Merkle

  datatype Collision = Collision(x: Bytes, y: Bytes)

  predicate IsCollision(H: Hasher, c: Collision) {
    c.x != c.y && H(c.x) == H(c.y)
  }

  function Root(H: Hasher, es: seq<Entry>): Digest
    requires es != []
  {
    TreeRoot(H, Leaves(H, es))
  }

  function RootPreimage(H: Hasher, es: seq<Entry>): Bytes
    requires es != []
  {
    if |es| == 1 then LeafPreimage(es[0])
    else PairPreimage(Root(H, es[..Split(|es|)]), Root(H, es[Split(|es|)..]))
  }

  lemma RootHashesItsPreimage(H: Hasher, es: seq<Entry>)
    requires es != []
    ensures Root(H, es) == H(RootPreimage(H, es))
  {
    if |es| > 1 {
      var k := Split(|es|);
      assert Leaves(H, es)[..k] == Leaves(H, es[..k]);
      assert Leaves(H, es)[k..] == Leaves(H, es[k..]);
    }
  }

  /** Walk the proof down from the root next to the tree. At each node the two preimages either
      differ, which is the collision, or name a child to continue in. */
  function Extract(H: Hasher, es: seq<Entry>, e: Entry, proof: seq<Digest>): Collision
    requires es != []
    decreases |proof|
  {
    if proof == [] then
      Collision(LeafPreimage(e), RootPreimage(H, es))
    else
      var shorter := proof[..|proof| - 1];
      var below := Fold(H, HashLeaf(H, e), shorter);
      var x := PairPreimage(below, proof[|proof| - 1]);
      if |es| == 1 || x != RootPreimage(H, es) then
        Collision(x, RootPreimage(H, es))
      else
        var k := Split(|es|);
        if below == Root(H, es[..k]) then Extract(H, es[..k], e, shorter)
        else Extract(H, es[k..], e, shorter)
  }

  /** Soundness for every proof length: short proofs, long proofs and wrong branches all end in a
      collision of two concrete preimages. */
  lemma {:induction false} Soundness(H: Hasher, es: seq<Entry>, e: Entry, proof: seq<Digest>)
    requires es != [] && e !in es
    requires Fold(H, HashLeaf(H, e), proof) == Root(H, es)
    ensures IsCollision(H, Extract(H, es, e, proof))
    decreases |proof|
  {
    RootHashesItsPreimage(H, es);
    if proof == [] {
      if |es| == 1 && LeafPreimage(e) == LeafPreimage(es[0]) {
        LeafPreimageInjective(e, es[0]);
      }
    } else if |es| > 1 {
      var k := Split(|es|);
      var shorter, last := proof[..|proof| - 1], proof[|proof| - 1];
      var below := Fold(H, HashLeaf(H, e), shorter);
      var l, r := Root(H, es[..k]), Root(H, es[k..]);
      if PairPreimage(below, last) == RootPreimage(H, es) {
        PairPreimageInjective(below, last, l, r);
        if below == l {
          Soundness(H, es[..k], e, shorter);
        } else {
          Soundness(H, es[k..], e, shorter);
        }
      }
    }
  }

  /** The proof the builder stores for a key's last entry folds to the root it returns. */
  lemma StoredProofVerifies(H: Hasher, es: seq<Entry>, proofs: map<Pubkey, seq<Digest>>, i: nat)
    requires i < |es| && IsLast(es, i)
    requires ProofsOf(H, es, |es|, proofs)
    ensures es[i].0 in proofs
    ensures Fold(H, HashLeaf(H, es[i]), proofs[es[i].0]) == Root(H, es)
  {
    assert es[..|es|] == es;
    PathFoldsToRoot(H, Leaves(H, es), i);
  }

  /** Every key of the tree has such an entry. */
  lemma {:induction false} LastOccurrence(es: seq<Entry>, k: Pubkey) returns (i: nat)
    requires exists j :: 0 <= j < |es| && es[j].0 == k
    ensures i < |es| && es[i].0 == k && IsLast(es, i)
  {
    var n := |es| - 1;
    if es[n].0 == k {
      i := n;
    } else {
      var init := es[..n];
      var j :| 0 <= j < |es| && es[j].0 == k;
      assert init[j].0 == k;
      i := LastOccurrence(init, k);
      forall m | i < m < |es| ensures es[m].0 != k {
        if m < n {
          assert init[m].0 != k;
        }
      }
    }
  }

  /** The first entry of `a`, from position `i` on, that `b` lacks. */
  function FirstMissing(a: seq<Entry>, b: seq<Entry>, i: nat): (r: Option<nat>)
    requires i <= |a|
    ensures r.Some? ==> r.value < |a| && a[r.value] !in b
    ensures r.None? ==> forall j :: i <= j < |a| ==> a[j] in b
    decreases |a| - i
  {
    if i == |a| then None
    else if a[i] !in b then Some(i)
    else FirstMissing(a, b, i + 1)
  }

  /** The collision behind two entry lists with one root and different entries. */
  function Distinguish(H: Hasher, a: seq<Entry>, b: seq<Entry>): Collision
    requires a != [] && b != []
  {
    match FirstMissing(a, b, 0)
    case Some(i) => Extract(H, b, a[i], TreePath(H, Leaves(H, a), i))
    case None =>
      match FirstMissing(b, a, 0)
      case Some(i) => Extract(H, a, b[i], TreePath(H, Leaves(H, b), i))
      case None => Collision([], [])
  }

  ghost predicate SameEntries(a: seq<Entry>, b: seq<Entry>) {
    forall e :: e in a <==> e in b
  }

  /** A root binds the set of entries it was built from; not their order, since pairs are sorted. */
  lemma RootBinding(H: Hasher, a: seq<Entry>, b: seq<Entry>)
    requires a != [] && b != [] && Root(H, a) == Root(H, b)
    ensures SameEntries(a, b) || IsCollision(H, Distinguish(H, a, b))
  {
    match FirstMissing(a, b, 0) {
      case Some(i) =>
        PathFoldsToRoot(H, Leaves(H, a), i);
        Soundness(H, b, a[i], TreePath(H, Leaves(H, a), i));
      case None =>
        match FirstMissing(b, a, 0) {
          case Some(i) =>
            PathFoldsToRoot(H, Leaves(H, b), i);
            Soundness(H, a, b[i], TreePath(H, Leaves(H, b), i));
          case None =>
        }
    }
  }

  /** Order is really lost: swapping the two entries of a pair leaves the root alone. */
  lemma RootForgetsOrder(H: Hasher, d: Entry, e: Entry)
    ensures Root(H, [d, e]) == Root(H, [e, d])
  {
    var ab, ba := Leaves(H, [d, e]), Leaves(H, [e, d]);
    assert ab == [HashLeaf(H, d), HashLeaf(H, e)] && ba == [HashLeaf(H, e), HashLeaf(H, d)];
    assert Split(2) == 1;
    assert TreeRoot(H, ab[..1]) == HashLeaf(H, d) && TreeRoot(H, ab[1..]) == HashLeaf(H, e);
    assert TreeRoot(H, ba[..1]) == HashLeaf(H, e) && TreeRoot(H, ba[1..]) == HashLeaf(H, d);
    HashPairCommutes(H, HashLeaf(H, d), HashLeaf(H, e));
  }
}
