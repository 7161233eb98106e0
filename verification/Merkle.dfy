/** The keccak Merkle tree of `src/merkle.rs` and its copy in `src/rewardz_merkle.rs`.

    The digest function is a parameter `H` throughout: nothing is assumed about it, in
    particular no injectivity. */
module Merkle {
  import opened Common
  import opened Bytes

  type Hasher = Bytes -> Digest
  type Entry = (Pubkey, U64)

  // ---------------------------------------------------------------- hashing

  function LeafPreimage(e: Entry): (b: Bytes)
    ensures |b| == 40
  {
    e.0 + LeBytes(e.1, 8)
  }

  function HashLeaf(H: Hasher, e: Entry): Digest {
    H(LeafPreimage(e))
  }

  function PairPreimage(a: Digest, b: Digest): (p: Bytes)
    ensures |p| == 64
  {
    if LexLe(a, b) then a + b else b + a
  }

  function HashPair(H: Hasher, a: Digest, b: Digest): Digest {
    H(PairPreimage(a, b))
  }

  function Leaves(H: Hasher, es: seq<Entry>): (hs: seq<Digest>)
    ensures |hs| == |es|
  {
    seq(|es|, i requires 0 <= i < |es| => HashLeaf(H, es[i]))
  }

  lemma LeafPreimageInjective(d: Entry, e: Entry)
    requires LeafPreimage(d) == LeafPreimage(e)
    ensures d == e
  {
    assert LeafPreimage(d)[..32] == d.0 && LeafPreimage(e)[..32] == e.0;
    assert LeafPreimage(d)[32..] == LeBytes(d.1, 8) && LeafPreimage(e)[32..] == LeBytes(e.1, 8);
    LeU64Injective(d.1, e.1);
  }

  /** Sorting makes the pair unordered: the digests can be read back only as a set. */
  lemma PairPreimageInjective(a: Digest, b: Digest, c: Digest, d: Digest)
    requires PairPreimage(a, b) == PairPreimage(c, d)
    ensures (a == c && b == d) || (a == d && b == c)
  {
    var p, q := PairPreimage(a, b), PairPreimage(c, d);
    assert p[..32] == if LexLe(a, b) then a else b;
    assert p[32..] == if LexLe(a, b) then b else a;
    assert q[..32] == if LexLe(c, d) then c else d;
    assert q[32..] == if LexLe(c, d) then d else c;
  }

  lemma HashPairCommutes(H: Hasher, a: Digest, b: Digest)
    ensures HashPair(H, a, b) == HashPair(H, b, a)
  {
    LexLeTotal(a, b);
    if LexLe(a, b) && LexLe(b, a) {
      LexLeAntisymmetric(a, b);
    }
  }

  /** The 40 bytes of a leaf: the key, then the amount with its least significant byte first. */
  ghost predicate SpellsLeaf(b: Bytes, e: Entry) {
    && |b| == 40 && b[..32] == e.0
    && (forall i :: 0 <= i < 8 ==> b[32 + i] == e.1 / Pow256(i) % 256)
  }

  /** The 64 bytes of a pair: both digests, the one with the smaller byte where they part in front. */
  ghost predicate SmallerFirst(p: Bytes, a: Digest, b: Digest) {
    && |p| == 64
    && ((p[..32] == a && p[32..] == b) || (p[..32] == b && p[32..] == a))
    && (p[..32] == p[32..] || exists i :: 0 <= i < 32 && PartsAt(p, i))
  }

  predicate PartsAt(p: Bytes, i: nat)
    requires |p| == 64 && i < 32
  {
    p[i] < p[32 + i] && p[..i] == p[32..32 + i]
  }

  lemma LeafIsSpelled(e: Entry)
    ensures SpellsLeaf(LeafPreimage(e), e)
  {
    forall i | 0 <= i < 8 ensures LeafPreimage(e)[32 + i] == e.1 / Pow256(i) % 256 {
      LeByteAt(e.1, 8, i);
    }
  }

  lemma PairIsSorted(a: Digest, b: Digest)
    ensures SmallerFirst(PairPreimage(a, b), a, b)
  {
    var p := PairPreimage(a, b);
    LexLeTotal(a, b);
    var lo, hi := if LexLe(a, b) then a else b, if LexLe(a, b) then b else a;
    assert p[..32] == lo && p[32..] == hi;
    if lo != hi {
      var i := LexLeParts(lo, hi);
      assert p[..i] == lo[..i] && p[32..32 + i] == hi[..i];
      assert PartsAt(p, i);
    }
  }

  // ------------------------------------------------- the reference tree: split top-down

  ghost predicate IsPow2(k: nat) {
    exists e: nat :: k == Pow2(e)
  }

  function Pow2(e: nat): nat {
    if e == 0 then 1 else 2 * Pow2(e - 1)
  }

  /** The largest power of two strictly below `n`. */
  function Split(n: nat): (k: nat)
    requires n >= 2
    ensures k < n <= 2 * k
  {
    if n == 2 then 1 else 2 * Split((n + 1) / 2)
  }

  lemma {:induction false} SplitIsPow2(n: nat)
    requires n >= 2
    ensures IsPow2(Split(n))
  {
    if n == 2 {
      assert Split(n) == Pow2(0);
    } else {
      SplitIsPow2((n + 1) / 2);
      var e: nat :| Split((n + 1) / 2) == Pow2(e);
      assert Split(n) == Pow2(e + 1);
    }
  }

  /** The reference root: cut at the largest power of two below the size, hash the two halves'
      roots. It knows nothing of levels, indices or odd tails. */
  function TreeRoot(H: Hasher, hs: seq<Digest>): Digest
    requires hs != []
  {
    if |hs| == 1 then hs[0]
    else
      var k := Split(|hs|);
      HashPair(H, TreeRoot(H, hs[..k]), TreeRoot(H, hs[k..]))
  }

  /** The reference authentication path of leaf `i`, nearest sibling first. */
  function TreePath(H: Hasher, hs: seq<Digest>, i: nat): seq<Digest>
    requires i < |hs|
  {
    if |hs| == 1 then []
    else
      var k := Split(|hs|);
      if i < k then TreePath(H, hs[..k], i) + [TreeRoot(H, hs[k..])]
      else TreePath(H, hs[k..], i - k) + [TreeRoot(H, hs[..k])]
  }

  /** The whole meaning of a root in terms of the bytes hashed: of one entry it is the hash of the
      entry's 40 bytes; of more, the hash of the 64 bytes of the roots of two parts, cut at the largest
      power of two below the size. */
  lemma RootSpelled(H: Hasher, es: seq<Entry>) returns (k: nat, p: Bytes)
    requires es != []
    ensures |es| == 1 ==> SpellsLeaf(p, es[0])
    ensures |es| > 1 ==>
      && IsPow2(k) && k < |es| <= 2 * k
      && SmallerFirst(p, TreeRoot(H, Leaves(H, es[..k])), TreeRoot(H, Leaves(H, es[k..])))
    ensures TreeRoot(H, Leaves(H, es)) == H(p)
  {
    if |es| == 1 {
      k, p := 0, LeafPreimage(es[0]);
      LeafIsSpelled(es[0]);
    } else {
      k := Split(|es|);
      SplitIsPow2(|es|);
      TreeRootSplits(H, Leaves(H, es), k);
      assert Leaves(H, es)[..k] == Leaves(H, es[..k]) && Leaves(H, es)[k..] == Leaves(H, es[k..]);
      var a, b := TreeRoot(H, Leaves(H, es[..k])), TreeRoot(H, Leaves(H, es[k..]));
      PairIsSorted(a, b);
      p := PairPreimage(a, b);
    }
  }

  /** The root of two entries is the hash of their leaf hashes, the smaller first. */
  lemma RootOfTwo(H: Hasher, d: Entry, e: Entry) returns (x: Bytes, y: Bytes, p: Bytes)
    ensures SpellsLeaf(x, d) && SpellsLeaf(y, e) && SmallerFirst(p, H(x), H(y))
    ensures TreeRoot(H, Leaves(H, [d, e])) == H(p)
  {
    x, y := LeafPreimage(d), LeafPreimage(e);
    LeafIsSpelled(d);
    LeafIsSpelled(e);
    p := PairPreimage(H(x), H(y));
    PairIsSorted(H(x), H(y));
    assert Leaves(H, [d, e]) == [H(x), H(y)];
    TreeRootSplits(H, [H(x), H(y)], 1);
    assert [H(x), H(y)][..1] == [H(x)] && [H(x), H(y)][1..] == [H(y)];
  }

  function CeilLog2(n: nat): nat {
    if n <= 1 then 0 else 1 + CeilLog2((n + 1) / 2)
  }

  /** `CeilLog2(n)` is the least exponent whose power of two reaches `n`. */
  lemma {:induction false} CeilLog2Meaning(n: nat)
    requires n >= 1
    ensures n <= Pow2(CeilLog2(n))
    ensures n >= 2 ==> CeilLog2(n) >= 1 && Pow2(CeilLog2(n) - 1) < n
  {
    if n == 1 {
    } else {
      CeilLog2Meaning((n + 1) / 2);
    }
  }

  lemma TreeRootSplits(H: Hasher, hs: seq<Digest>, k: nat)
    requires |hs| >= 2 && k == Split(|hs|)
    ensures TreeRoot(H, hs) == HashPair(H, TreeRoot(H, hs[..k]), TreeRoot(H, hs[k..]))
  {
  }

  lemma TreePathLeft(H: Hasher, hs: seq<Digest>, i: nat)
    requires |hs| >= 2 && i < Split(|hs|)
    ensures TreePath(H, hs, i) == TreePath(H, hs[..Split(|hs|)], i) + [TreeRoot(H, hs[Split(|hs|)..])]
  {
  }

  lemma TreePathRight(H: Hasher, hs: seq<Digest>, i: nat)
    requires |hs| >= 2 && Split(|hs|) <= i < |hs|
    ensures TreePath(H, hs, i) == TreePath(H, hs[Split(|hs|)..], i - Split(|hs|)) + [TreeRoot(H, hs[..Split(|hs|)])]
  {
  }

  // ---------------------------------------------------------------- verification

  /** What the verifier computes: absorb the proof elements left to right. */
  function Fold(H: Hasher, leaf: Digest, proof: seq<Digest>): Digest {
    if proof == [] then leaf
    else HashPair(H, Fold(H, leaf, proof[..|proof| - 1]), proof[|proof| - 1])
  }

  method VerifyProof(H: Hasher, leaf: Digest, proof: seq<Digest>, root: Digest) returns (ok: bool)
    ensures ok <==> Fold(H, leaf, proof) == root
  {
    var current := leaf;
    for i := 0 to |proof|
      invariant current == Fold(H, leaf, proof[..i])
    {
      assert proof[..i + 1][..i] == proof[..i];
      current := HashPair(H, current, proof[i]);
    }
    assert proof[..|proof|] == proof;
    ok := current == root;
  }

  lemma FoldSnoc(H: Hasher, leaf: Digest, proof: seq<Digest>, x: Digest)
    ensures Fold(H, leaf, proof + [x]) == HashPair(H, Fold(H, leaf, proof), x)
  {
    assert (proof + [x])[..|proof|] == proof;
  }

  /** ... and so is the meaning of a fold: nothing absorbed leaves the leaf, and each further element
      is hashed with what came before it, the smaller first. */
  lemma FoldSpelled(H: Hasher, leaf: Digest, proof: seq<Digest>, x: Digest) returns (p: Bytes)
    ensures Fold(H, leaf, []) == leaf
    ensures Fold(H, leaf, proof + [x]) == H(p) && SmallerFirst(p, Fold(H, leaf, proof), x)
  {
    FoldSnoc(H, leaf, proof, x);
    PairIsSorted(Fold(H, leaf, proof), x);
    p := PairPreimage(Fold(H, leaf, proof), x);
  }

  /** Completeness of the reference: the path of any leaf folds to the root. */
  lemma {:induction false} PathFoldsToRoot(H: Hasher, hs: seq<Digest>, i: nat)
    requires i < |hs|
    ensures Fold(H, hs[i], TreePath(H, hs, i)) == TreeRoot(H, hs)
    decreases |hs|
  {
    if |hs| <= 1 {
    } else {
      var k := Split(|hs|);
      if i < k {
        PathFoldsToRoot(H, hs[..k], i);
        FoldLeft(H, hs, i);
      } else {
        PathFoldsToRoot(H, hs[k..], i - k);
        FoldRight(H, hs, i);
      }
    }
  }

  lemma FoldLeft(H: Hasher, hs: seq<Digest>, i: nat)
    requires |hs| >= 2 && i < Split(|hs|)
    requires var lo := hs[..Split(|hs|)]; Fold(H, hs[i], TreePath(H, lo, i)) == TreeRoot(H, lo)
    ensures Fold(H, hs[i], TreePath(H, hs, i)) == TreeRoot(H, hs)
  {
    var k := Split(|hs|);
    TreeRootSplits(H, hs, k);
    TreePathLeft(H, hs, i);
    FoldSnoc(H, hs[i], TreePath(H, hs[..k], i), TreeRoot(H, hs[k..]));
  }

  lemma FoldRight(H: Hasher, hs: seq<Digest>, i: nat)
    requires |hs| >= 2 && Split(|hs|) <= i < |hs|
    requires var hi := hs[Split(|hs|)..]; Fold(H, hs[i], TreePath(H, hi, i - Split(|hs|))) == TreeRoot(H, hi)
    ensures Fold(H, hs[i], TreePath(H, hs, i)) == TreeRoot(H, hs)
  {
    var k := Split(|hs|);
    TreeRootSplits(H, hs, k);
    TreePathRight(H, hs, i);
    FoldSnoc(H, hs[i], TreePath(H, hs[k..], i - k), TreeRoot(H, hs[..k]));
    HashPairCommutes(H, TreeRoot(H, hs[..k]), TreeRoot(H, hs[k..]));
  }

  // ------------------------------------------------------- one level of the bottom-up loop

  /** Node `j` of the level above `hs`: two children hashed, or an odd tail promoted unhashed. */
  function Parent(H: Hasher, hs: seq<Digest>, j: nat): Digest
    requires 2 * j < |hs|
  {
    if 2 * j + 1 < |hs| then HashPair(H, hs[2 * j], hs[2 * j + 1]) else hs[2 * j]
  }

  function PairUp(H: Hasher, hs: seq<Digest>): (up: seq<Digest>)
    ensures |up| == (|hs| + 1) / 2
  {
    seq((|hs| + 1) / 2, j requires 0 <= j < (|hs| + 1) / 2 => Parent(H, hs, j))
  }

  /** What one level contributes to the proof of position `i`: its sibling, if it has one. */
  function Sibling(hs: seq<Digest>, i: nat): seq<Digest>
    requires i < |hs|
  {
    var s := if i % 2 == 0 then i + 1 else i - 1;
    if s < |hs| then [hs[s]] else []
  }

  /** An even cut commutes with pairing up. */
  lemma PairUpSplits(H: Hasher, hs: seq<Digest>, k: nat)
    requires k <= |hs| && k % 2 == 0
    ensures PairUp(H, hs)[..k / 2] == PairUp(H, hs[..k])
    ensures PairUp(H, hs)[k / 2..] == PairUp(H, hs[k..])
  {
    var up := PairUp(H, hs);
    assert |PairUp(H, hs[..k])| == k / 2;
    forall j | 0 <= j < k / 2 ensures up[..k / 2][j] == PairUp(H, hs[..k])[j] {
    }
    forall j | 0 <= j < |up| - k / 2 ensures up[k / 2..][j] == PairUp(H, hs[k..])[j] {
      assert up[k / 2 + j] == Parent(H, hs, k / 2 + j);
    }
  }

  /** Pairing up one level leaves the reference root alone. */
  lemma {:induction false} PairUpKeepsRoot(H: Hasher, hs: seq<Digest>)
    requires |hs| >= 2
    ensures TreeRoot(H, PairUp(H, hs)) == TreeRoot(H, hs)
    decreases |hs|
  {
    if |hs| == 2 {
      assert PairUp(H, hs) == [HashPair(H, hs[0], hs[1])];
    } else {
      var k := Split(|hs|);
      PairUpSplits(H, hs, k);
      PairUpKeepsRoot(H, hs[..k]);
      if |hs| - k >= 2 {
        PairUpKeepsRoot(H, hs[k..]);
      } else {
        assert PairUp(H, hs[k..]) == hs[k..];
      }
      TreeRootSplits(H, hs, k);
      TreeRootSplits(H, PairUp(H, hs), k / 2);
    }
  }

  /** Pairing up turns the reference cut of `hs` into the reference cut one level higher. */
  lemma CutClimbs(H: Hasher, hs: seq<Digest>)
    requires |hs| > 2
    ensures Split(|PairUp(H, hs)|) == Split(|hs|) / 2 && Split(|hs|) % 2 == 0
    ensures PairUp(H, hs)[..Split(|hs|) / 2] == PairUp(H, hs[..Split(|hs|)])
    ensures PairUp(H, hs)[Split(|hs|) / 2..] == PairUp(H, hs[Split(|hs|)..])
    ensures TreeRoot(H, PairUp(H, hs[..Split(|hs|)])) == TreeRoot(H, hs[..Split(|hs|)])
    ensures TreeRoot(H, PairUp(H, hs[Split(|hs|)..])) == TreeRoot(H, hs[Split(|hs|)..])
  {
    var k := Split(|hs|);
    PairUpSplits(H, hs, k);
    PairUpKeepsRoot(H, hs[..k]);
    if |hs| - k >= 2 {
      PairUpKeepsRoot(H, hs[k..]);
    } else {
      assert PairUp(H, hs[k..]) == hs[k..];
    }
  }

  /** The path of a position is its sibling on this level followed by its parent's path above. */
  lemma {:induction false} PathClimbs(H: Hasher, hs: seq<Digest>, i: nat)
    requires i < |hs|
    ensures TreePath(H, hs, i) == Sibling(hs, i) + TreePath(H, PairUp(H, hs), i / 2)
    decreases |hs|
  {
    if |hs| == 1 {
      assert PairUp(H, hs) == hs;
    } else if |hs| == 2 {
      assert PairUp(H, hs) == [HashPair(H, hs[0], hs[1])];
    } else if i < Split(|hs|) {
      PathClimbsLeft(H, hs, i);
    } else {
      PathClimbsRight(H, hs, i);
    }
  }

  /** The parent's path, seen from the cut one level up. */
  lemma ParentPathLeft(H: Hasher, hs: seq<Digest>, i: nat)
    requires |hs| > 2 && i < Split(|hs|)
    ensures TreePath(H, PairUp(H, hs), i / 2)
      == TreePath(H, PairUp(H, hs[..Split(|hs|)]), i / 2) + [TreeRoot(H, hs[Split(|hs|)..])]
  {
    CutClimbs(H, hs);
    TreePathLeft(H, PairUp(H, hs), i / 2);
  }

  lemma ParentPathRight(H: Hasher, hs: seq<Digest>, i: nat)
    requires |hs| > 2 && Split(|hs|) <= i < |hs|
    ensures TreePath(H, PairUp(H, hs), i / 2)
      == TreePath(H, PairUp(H, hs[Split(|hs|)..]), (i - Split(|hs|)) / 2) + [TreeRoot(H, hs[..Split(|hs|)])]
  {
    CutClimbs(H, hs);
    HalfShift(i, Split(|hs|));
    TreePathRight(H, PairUp(H, hs), i / 2);
  }

  lemma {:induction false} PathClimbsLeft(H: Hasher, hs: seq<Digest>, i: nat)
    requires |hs| > 2 && i < Split(|hs|)
    ensures TreePath(H, hs, i) == Sibling(hs, i) + TreePath(H, PairUp(H, hs), i / 2)
    decreases |hs|, 0
  {
    var k := Split(|hs|);
    var lo, root := hs[..k], TreeRoot(H, hs[k..]);
    PathClimbs(H, lo, i);
    TreePathLeft(H, hs, i);
    ParentPathLeft(H, hs, i);
    SplitIsEven(|hs|);
    SiblingLeft(hs, k, i);
    ConcatAssoc(Sibling(lo, i), TreePath(H, PairUp(H, lo), i / 2), [root]);
  }

  lemma SplitIsEven(n: nat)
    requires n > 2
    ensures Split(n) % 2 == 0
  {
  }

  lemma {:induction false} PathClimbsRight(H: Hasher, hs: seq<Digest>, i: nat)
    requires |hs| > 2 && Split(|hs|) <= i < |hs|
    ensures TreePath(H, hs, i) == Sibling(hs, i) + TreePath(H, PairUp(H, hs), i / 2)
    decreases |hs|, 0
  {
    var k, m := Split(|hs|), i - Split(|hs|);
    var hi, root := hs[k..], TreeRoot(H, hs[..k]);
    PathClimbs(H, hi, m);
    TreePathRight(H, hs, i);
    ParentPathRight(H, hs, i);
    SplitIsEven(|hs|);
    SiblingRight(hs, k, i);
    ConcatAssoc(Sibling(hi, m), TreePath(H, PairUp(H, hi), m / 2), [root]);
  }

  lemma HalfShift(i: nat, k: nat)
    requires k % 2 == 0 && k <= i
    ensures i / 2 - k / 2 == (i - k) / 2 && k / 2 <= i / 2
  {
  }

  lemma ConcatAssoc<T>(a: seq<T>, b: seq<T>, c: seq<T>)
    ensures a + b + c == a + (b + c)
  {
  }

  lemma SiblingLeft(hs: seq<Digest>, k: nat, i: nat)
    requires k % 2 == 0 && i < k <= |hs|
    ensures Sibling(hs, i) == Sibling(hs[..k], i)
  {
  }

  lemma SiblingRight(hs: seq<Digest>, k: nat, i: nat)
    requires k % 2 == 0 && k <= i < |hs|
    ensures Sibling(hs, i) == Sibling(hs[k..], i - k)
  {
    assert (i - k) % 2 == i % 2;
  }

  // ---------------------------------------------------------------- the builder

  datatype MerkleTree = MerkleTree(root: Digest, proofs: map<Pubkey, seq<Digest>>)

  /** `i` is the last entry for its key: the one whose proof survives in the map. */
  predicate IsLast(es: seq<Entry>, i: nat)
    requires i < |es|
  {
    forall j :: i < j < |es| ==> es[j].0 != es[i].0
  }

  predicate KeyAmong(es: seq<Entry>, n: nat, k: Pubkey)
    requires n <= |es|
  {
    exists i :: 0 <= i < n && es[i].0 == k
  }

  /** `proofs` holds, for every key among the first `n` entries, the reference path of the key's
      last occurrence there, and nothing else. */
  ghost predicate ProofsOf(H: Hasher, es: seq<Entry>, n: nat, proofs: map<Pubkey, seq<Digest>>)
    requires n <= |es|
  {
    && (forall k :: k in proofs <==> KeyAmong(es, n, k))
    && (forall i :: 0 <= i < n && IsLast(es[..n], i) ==> ProofAt(H, es, proofs, i))
  }

  ghost predicate ProofAt(H: Hasher, es: seq<Entry>, proofs: map<Pubkey, seq<Digest>>, i: nat)
    requires i < |es|
  {
    es[i].0 in proofs && proofs[es[i].0] == TreePath(H, Leaves(H, es), i)
  }

  /** Overwriting a key with the next entry's path keeps the map right. */
  lemma ProofsOfExtends(H: Hasher, es: seq<Entry>, n: nat, proofs: map<Pubkey, seq<Digest>>)
    requires n < |es| && ProofsOf(H, es, n, proofs)
    ensures ProofsOf(H, es, n + 1, proofs[es[n].0 := TreePath(H, Leaves(H, es), n)])
  {
    var more := proofs[es[n].0 := TreePath(H, Leaves(H, es), n)];
    forall k ensures k in more <==> KeyAmong(es, n + 1, k) {
      KeysExtend(es, n, k);
    }
    forall i | 0 <= i < n + 1 && IsLast(es[..n + 1], i) ensures ProofAt(H, es, more, i) {
      if i < n {
        EarlierLast(es, n, i);
        assert ProofAt(H, es, proofs, i);
        ProofStays(H, es, proofs, i, es[n].0, TreePath(H, Leaves(H, es), n));
      }
    }
  }

  lemma ProofStays(
      H: Hasher, es: seq<Entry>, proofs: map<Pubkey, seq<Digest>>, i: nat, key: Pubkey, path: seq<Digest>)
    requires i < |es| && ProofAt(H, es, proofs, i) && es[i].0 != key
    ensures ProofAt(H, es, proofs[key := path], i)
  {
  }

  lemma KeysExtend(es: seq<Entry>, n: nat, k: Pubkey)
    requires n < |es|
    ensures KeyAmong(es, n + 1, k) <==> KeyAmong(es, n, k) || k == es[n].0
  {
    if KeyAmong(es, n, k) {
      var i :| 0 <= i < n && es[i].0 == k;
      assert es[i].0 == k;
    }
    if k == es[n].0 {
      assert es[n].0 == k;
    }
  }

  lemma EarlierLast(es: seq<Entry>, n: nat, i: nat)
    requires i < n < |es| && IsLast(es[..n + 1], i)
    ensures IsLast(es[..n], i) && es[i].0 != es[n].0
  {
    assert es[..n + 1][n].0 != es[i].0;
    forall j | i < j < n ensures es[..n][j].0 != es[i].0 {
      assert es[..n + 1][j].0 != es[i].0;
    }
  }

  method BuildMerkleTree(H: Hasher, es: seq<Entry>) returns (r: Option<MerkleTree>)
    ensures r.None? <==> es == []
    ensures r.Some? ==> r.value.root == TreeRoot(H, Leaves(H, es))
    ensures r.Some? ==> ProofsOf(H, es, |es|, r.value.proofs)
    ensures r.Some? ==> forall k :: k in r.value.proofs ==> |r.value.proofs[k]| <= CeilLog2(|es|)
  {
    if es == [] {
      return None;
    }
    var leaves := Leaves(H, es);
    if |leaves| == 1 {
      return Some(MerkleTree(leaves[0], map[es[0].0 := []]));
    }
    var levels := BuildLevels(H, leaves);
    var top := levels[|levels| - 1];
    assert TreeRoot(H, top) == top[0];
    var proofs: map<Pubkey, seq<Digest>> := map[];
    for leafIdx := 0 to |es|
      invariant ProofsOf(H, es, leafIdx, proofs)
      invariant forall k :: k in proofs ==> |proofs[k]| <= CeilLog2(|es|)
    {
      var proof := ExtractProof(H, leaves, levels, leafIdx);
      ProofsOfExtends(H, es, leafIdx, proofs);
      proofs := proofs[es[leafIdx].0 := proof];
    }
    assert es[..|es|] == es;
    r := Some(MerkleTree(top[0], proofs));
  }

  ghost predicate IsTower(H: Hasher, leaves: seq<Digest>, levels: seq<seq<Digest>>) {
    && |levels| >= 1
    && levels[0] == leaves
    && (forall j :: 0 <= j < |levels| ==> levels[j] != [])
    && (forall j :: 0 <= j < |levels| - 1 ==> |levels[j]| >= 2 && levels[j + 1] == PairUp(H, levels[j]))
  }

  lemma TowerGrows(H: Hasher, leaves: seq<Digest>, levels: seq<seq<Digest>>)
    requires IsTower(H, leaves, levels) && |levels[|levels| - 1]| >= 2
    ensures IsTower(H, leaves, levels + [PairUp(H, levels[|levels| - 1])])
  {
    var taller := levels + [PairUp(H, levels[|levels| - 1])];
    forall j | 0 <= j < |taller| - 1 ensures |taller[j]| >= 2 && taller[j + 1] == PairUp(H, taller[j]) {
      if j < |levels| - 1 {
        assert taller[j + 1] == levels[j + 1];
      }
    }
  }

  method BuildLevels(H: Hasher, leaves: seq<Digest>) returns (levels: seq<seq<Digest>>)
    requires leaves != []
    ensures IsTower(H, leaves, levels)
    ensures |levels[|levels| - 1]| == 1
    ensures TreeRoot(H, levels[|levels| - 1]) == TreeRoot(H, leaves)
    ensures |levels| == CeilLog2(|leaves|) + 1
  {
    levels := [leaves];
    while |levels[|levels| - 1]| != 1
      invariant IsTower(H, leaves, levels)
      invariant TreeRoot(H, levels[|levels| - 1]) == TreeRoot(H, leaves)
      invariant |levels| + CeilLog2(|levels[|levels| - 1]|) == CeilLog2(|leaves|) + 1
      decreases |levels[|levels| - 1]|
    {
      var prev := levels[|levels| - 1];
      var next := NextLevel(H, prev);
      PairUpKeepsRoot(H, prev);
      TowerGrows(H, leaves, levels);
      levels := levels + [next];
    }
  }

  method NextLevel(H: Hasher, prev: seq<Digest>) returns (next: seq<Digest>)
    ensures next == PairUp(H, prev)
  {
    next := [];
    var i := 0;
    while i < |prev|
      invariant i % 2 == 0 && i <= |prev| + 1
      invariant |next| == i / 2
      invariant forall j :: 0 <= j < |next| ==> 2 * j < |prev| && next[j] == Parent(H, prev, j)
    {
      if i + 1 < |prev| {
        next := next + [HashPair(H, prev[i], prev[i + 1])];
      } else {
        next := next + [prev[i]];
      }
      i := i + 2;
    }
  }

  method ExtractProof(H: Hasher, leaves: seq<Digest>, levels: seq<seq<Digest>>, leafIdx: nat)
    returns (proof: seq<Digest>)
    requires IsTower(H, leaves, levels) && |levels[|levels| - 1]| == 1
    requires leafIdx < |leaves|
    ensures proof == TreePath(H, leaves, leafIdx)
    ensures |proof| <= |levels| - 1
  {
    proof := [];
    var idx: nat := leafIdx;
    for j := 0 to |levels| - 1
      invariant idx < |levels[j]|
      invariant proof + TreePath(H, levels[j], idx) == TreePath(H, leaves, leafIdx)
      invariant |proof| <= j
    {
      var level := levels[j];
      var siblingIdx: nat := if idx % 2 == 0 then idx + 1 else idx - 1;
      PathClimbs(H, level, idx);
      assert levels[j + 1] == PairUp(H, level);
      ghost var above := TreePath(H, levels[j + 1], idx / 2);
      assert proof + (Sibling(level, idx) + above) == proof + Sibling(level, idx) + above;
      if siblingIdx < |level| {
        proof := proof + [level[siblingIdx]];
      } else {
        assert proof + Sibling(level, idx) == proof;
      }
      idx := idx / 2;
    }
  }
}
