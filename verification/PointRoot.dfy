/** The point-root publisher and the proof table it leaves behind. */
module PointRoot {
  import opened Common
  import opened Bytes
  import opened Merkle
  import opened MerkleSoundness
  import opened Earnings
  import Hex

  /** Rows of `merkle_proofs`, keyed by epoch and authority. */
  type Key = (nat, string)
  datatype ProofRow = ProofRow(root: string, amount: int, proof: seq<Digest>)
  type Table = map<Key, ProofRow>

  /** One row to store: authority text, amount, proof. */
  type Item = (string, int, seq<Digest>)

  // ---------------------------------------------------------------- save_merkle_proofs

  function DropOlder(t: Table, epoch: nat): Table {
    map k | k in t && k.0 >= epoch :: t[k]
  }

  function Upsert(t: Table, epoch: nat, root: Digest, items: seq<Item>): Table {
    if items == [] then t
    else
      var last := items[|items| - 1];
      Upsert(t, epoch, root, items[..|items| - 1])[(epoch, last.0) := ProofRow(Hex.Encode(root), last.1, last.2)]
  }

  function Save(t: Table, epoch: nat, root: Digest, items: seq<Item>): Table {
    Upsert(DropOlder(t, epoch), epoch, root, items)
  }

  /** The items `publish_root` builds from the tree: each entry with its key's stored proof. */
  function Items(p: Params, es: seq<Entry>): (items: seq<Item>)
    ensures |items| == |es|
  {
    seq(|es|, i requires 0 <= i < |es| => (p.show(es[i].0), es[i].1, TreePath(p.H, Leaves(p.H, es), i)))
  }

  /** `k` addresses one of the entries at `epoch`. */
  predicate Names(p: Params, es: seq<Entry>, epoch: nat, k: Key) {
    exists i :: 0 <= i < |es| && k == (epoch, p.show(es[i].0))
  }

  predicate Lists(items: seq<Item>, epoch: nat, k: Key) {
    exists i :: 0 <= i < |items| && k == (epoch, items[i].0)
  }

  function RowFor(p: Params, es: seq<Entry>, i: nat): ProofRow
    requires i < |es|
  {
    ProofRow(Hex.Encode(Root(p.H, es)), es[i].1, TreePath(p.H, Leaves(p.H, es), i))
  }

  /** `t` is the tree over `es`, published as `epoch`, and nothing else. */
  ghost predicate IsTreeTable(p: Params, t: Table, epoch: nat, es: seq<Entry>) {
    && (forall k :: k in t <==> Names(p, es, epoch, k))
    && (forall i :: 0 <= i < |es| ==>
          (epoch, p.show(es[i].0)) in t && t[(epoch, p.show(es[i].0))] == RowFor(p, es, i))
  }

  ghost predicate DistinctNames(p: Params, es: seq<Entry>) {
    forall i, j :: 0 <= i < j < |es| ==> p.show(es[i].0) != p.show(es[j].0)
  }

  lemma ListsSnoc(items: seq<Item>, epoch: nat, k: Key)
    requires items != []
    ensures var n := |items| - 1;
      Lists(items, epoch, k) <==> Lists(items[..n], epoch, k) || k == (epoch, items[n].0)
  {
    var n := |items| - 1;
    if Lists(items[..n], epoch, k) {
      var i :| 0 <= i < n && k == (epoch, items[..n][i].0);
      assert k == (epoch, items[i].0);
    }
    if Lists(items, epoch, k) && k != (epoch, items[n].0) {
      var i :| 0 <= i < |items| && k == (epoch, items[i].0);
      assert k == (epoch, items[..n][i].0);
    }
  }

  lemma {:induction false} UpsertKeys(t: Table, epoch: nat, root: Digest, items: seq<Item>, k: Key)
    ensures k in Upsert(t, epoch, root, items) <==> k in t || Lists(items, epoch, k)
  {
    if items == [] {
    } else {
      UpsertKeys(t, epoch, root, items[..|items| - 1], k);
      ListsSnoc(items, epoch, k);
    }
  }

  lemma {:induction false} UpsertElsewhere(t: Table, epoch: nat, root: Digest, items: seq<Item>, k: Key)
    requires k in t && !Lists(items, epoch, k)
    ensures k in Upsert(t, epoch, root, items) && Upsert(t, epoch, root, items)[k] == t[k]
  {
    if items == [] {
    } else {
      ListsSnoc(items, epoch, k);
      UpsertElsewhere(t, epoch, root, items[..|items| - 1], k);
    }
  }

  lemma {:induction false} UpsertRows(t: Table, epoch: nat, root: Digest, items: seq<Item>, i: nat)
    requires i < |items| && forall j :: i < j < |items| ==> items[j].0 != items[i].0
    ensures var out := Upsert(t, epoch, root, items);
      (epoch, items[i].0) in out && out[(epoch, items[i].0)] == ProofRow(Hex.Encode(root), items[i].1, items[i].2)
  {
    if i == |items| - 1 {
    } else {
      UpsertRows(t, epoch, root, items[..|items| - 1], i);
    }
  }

  lemma ItemsName(p: Params, es: seq<Entry>, epoch: nat, k: Key)
    ensures Lists(Items(p, es), epoch, k) <==> Names(p, es, epoch, k)
  {
    var items := Items(p, es);
    if Lists(items, epoch, k) {
      var i :| 0 <= i < |items| && k == (epoch, items[i].0);
      assert k == (epoch, p.show(es[i].0));
    }
    if Names(p, es, epoch, k) {
      var i :| 0 <= i < |es| && k == (epoch, p.show(es[i].0));
      assert k == (epoch, items[i].0);
    }
  }

  /** Whatever was there before, after a save the tree's rows are right and its keys present. */
  lemma SaveEffect(p: Params, t: Table, epoch: nat, es: seq<Entry>)
    requires es != [] && DistinctNames(p, es)
    ensures var out := Save(t, epoch, Root(p.H, es), Items(p, es));
      && (forall k :: k in out <==> (k in t && k.0 >= epoch) || Names(p, es, epoch, k))
      && (forall k :: k in t && k.0 >= epoch && !Names(p, es, epoch, k) ==> k in out && out[k] == t[k])
      && (forall i :: 0 <= i < |es| ==>
            (epoch, p.show(es[i].0)) in out && out[(epoch, p.show(es[i].0))] == RowFor(p, es, i))
  {
    var out := Save(t, epoch, Root(p.H, es), Items(p, es));
    forall k ensures k in out <==> (k in t && k.0 >= epoch) || Names(p, es, epoch, k) {
      UpsertKeys(DropOlder(t, epoch), epoch, Root(p.H, es), Items(p, es), k);
      ItemsName(p, es, epoch, k);
    }
    forall k | k in t && k.0 >= epoch && !Names(p, es, epoch, k) ensures k in out && out[k] == t[k] {
      ItemsName(p, es, epoch, k);
      UpsertElsewhere(DropOlder(t, epoch), epoch, Root(p.H, es), Items(p, es), k);
    }
    forall i | 0 <= i < |es|
      ensures (epoch, p.show(es[i].0)) in out && out[(epoch, p.show(es[i].0))] == RowFor(p, es, i)
    {
      UpsertRows(DropOlder(t, epoch), epoch, Root(p.H, es), Items(p, es), i);
    }
  }

  /** A successful save leaves exactly the new tree, if and only if no row of a later epoch, or of
      this epoch for an authority outside the tree, was there before. */
  lemma SaveIsExactIff(p: Params, t: Table, epoch: nat, es: seq<Entry>)
    requires es != [] && DistinctNames(p, es)
    ensures IsTreeTable(p, Save(t, epoch, Root(p.H, es), Items(p, es)), epoch, es) <==>
      (forall k :: k in t && k.0 >= epoch ==> Names(p, es, epoch, k))
  {
    SaveEffect(p, t, epoch, es);
  }

  // ---------------------------------------------------------------- the cron over one process run

  /** One tick: the users read, and whether the transaction confirmed and the save committed. */
  datatype Round = Round(users: seq<Group>, readOk: bool, confirmed: bool, saved: bool)

  /** The process: its epoch counter, the table, and the last tree whose save committed. */
  datatype Process = Process(epoch: nat, table: Table, last: Option<(nat, seq<Entry>)>)

  ghost predicate GoodUsers(p: Params, users: seq<Group>) {
    Sorted(p.before, users) && InRange(users)
  }

  predicate InRange(users: seq<Group>) {
    forall i :: 0 <= i < |users| ==> InBigint(users[i])
  }

  predicate RoundsInRange(rounds: seq<Round>) {
    forall i :: 0 <= i < |rounds| ==> InRange(rounds[i].users)
  }

  /** The users query: sorted by wallet text, one row a wallet, points within BIGINT. */
  ghost predicate GoodRounds(p: Params, rounds: seq<Round>)
    ensures GoodRounds(p, rounds) ==> RoundsInRange(rounds)
  {
    && RoundsInRange(rounds)
    && (forall i :: 0 <= i < |rounds| ==> GoodUsers(p, rounds[i].users))
  }

  /** The publish gets as far as a committed save. */
  predicate Saves(p: Params, r: Round)
    requires InRange(r.users)
  {
    r.readOk && ToEntries(p.parse, r.users) != [] && r.confirmed && r.saved
  }

  function TableAfter(p: Params, t: Table, epoch: nat, r: Round): Table
    requires InRange(r.users)
  {
    var es := ToEntries(p.parse, r.users);
    if Saves(p, r) then Save(t, epoch, Root(p.H, es), Items(p, es)) else t
  }

  /** The counter moves whatever happens to the publish. */
  function Tick(p: Params, s: Process, r: Round): Process
    requires InRange(r.users)
  {
    var e := s.epoch + 1;
    var es := ToEntries(p.parse, r.users);
    Process(e, TableAfter(p, s.table, e, r), if Saves(p, r) then Some((e, es)) else s.last)
  }

  function Run(p: Params, start: nat, rounds: seq<Round>): Process
    requires RoundsInRange(rounds)
  {
    if rounds == [] then Process(start, map[], None)
    else Tick(p, Run(p, start, rounds[..|rounds| - 1]), rounds[|rounds| - 1])
  }

  ghost predicate Mirrors(p: Params, s: Process) {
    match s.last
    case None => s.table == map[]
    case Some((e, es)) =>
      es != [] && e <= s.epoch && DistinctKeys(es) && DistinctNames(p, es) && IsTreeTable(p, s.table, e, es)
  }

  /** Distinct keys parsed from text have distinct texts. */
  lemma {:induction false} ParsedNames(p: Params, gs: seq<Group>)
    requires ValidParams(p) && GoodUsers(p, gs)
    ensures DistinctKeys(ToEntries(p.parse, gs)) && DistinctNames(p, ToEntries(p.parse, gs))
  {
    var es := ToEntries(p.parse, gs);
    ToEntriesDistinct(p, gs);
    forall i | 0 <= i < |es| ensures p.parse(p.show(es[i].0)) == Some(es[i].0) {
      assert es[i] in es;
      ToEntriesMember(p.parse, gs, es[i]);
    }
    forall i, j | 0 <= i < j < |es| ensures p.show(es[i].0) != p.show(es[j].0) {
      assert p.parse(p.show(es[i].0)) != p.parse(p.show(es[j].0));
    }
  }

  /** Every row of a mirrored table is of the epoch last saved. */
  lemma RowsAreOld(p: Params, s: Process, k: Key)
    requires Mirrors(p, s) && k in s.table
    ensures k.0 <= s.epoch
  {
    var (e, es) := s.last.value;
    assert Names(p, es, e, k);
  }

  lemma TickMirrors(p: Params, s: Process, r: Round)
    requires ValidParams(p) && GoodUsers(p, r.users) && Mirrors(p, s)
    ensures Mirrors(p, Tick(p, s, r))
  {
    if Saves(p, r) {
      ParsedNames(p, r.users);
      forall k | k in s.table ensures k.0 <= s.epoch {
        RowsAreOld(p, s, k);
      }
      SaveIsExactIff(p, s.table, s.epoch + 1, ToEntries(p.parse, r.users));
    }
  }

  /** Within one process run the table always is the last saved tree, exactly. */
  lemma {:induction false} TableMirrorsLastTree(p: Params, start: nat, rounds: seq<Round>)
    requires ValidParams(p) && GoodRounds(p, rounds)
    ensures Mirrors(p, Run(p, start, rounds))
    ensures Run(p, start, rounds).epoch == start + |rounds|
  {
    if rounds == [] {
    } else {
      var n := |rounds| - 1;
      TableMirrorsLastTree(p, start, rounds[..n]);
      TickMirrors(p, Run(p, start, rounds[..n]), rounds[n]);
    }
  }

  /** Everything a round needs before its tree is stored: the read, a tree to store, the confirmed
      transaction, the committed save. */
  ghost predicate StoresTree(p: Params, r: Round)
    requires InRange(r.users)
  {
    r.readOk && r.confirmed && r.saved && ToEntries(p.parse, r.users) != []
  }

  /** No round from `i` on had all of it. */
  ghost predicate NoneFrom(p: Params, rounds: seq<Round>, i: nat)
    requires RoundsInRange(rounds)
  {
    forall j :: i <= j < |rounds| ==> !StoresTree(p, rounds[j])
  }

  lemma NoneFromSnoc(p: Params, rounds: seq<Round>, i: nat)
    requires RoundsInRange(rounds) && i < |rounds|
    ensures var n := |rounds| - 1;
      NoneFrom(p, rounds, i) <==> NoneFrom(p, rounds[..n], i) && !StoresTree(p, rounds[n])
  {
    var n := |rounds| - 1;
    assert forall j :: 0 <= j < n ==> rounds[..n][j] == rounds[j];
    if NoneFrom(p, rounds, i) {
      forall j | i <= j < n ensures !StoresTree(p, rounds[..n][j]) {
        assert !StoresTree(p, rounds[j]);
      }
    }
    if NoneFrom(p, rounds[..n], i) && !StoresTree(p, rounds[n]) {
      forall j | i <= j < |rounds| ensures !StoresTree(p, rounds[j]) {
        if j < n {
          assert !StoresTree(p, rounds[..n][j]);
        }
      }
    }
  }

  lemma TickLast(p: Params, s: Process, r: Round)
    requires InRange(r.users)
    ensures Tick(p, s, r).last ==
      if StoresTree(p, r) then Some((s.epoch + 1, ToEntries(p.parse, r.users))) else s.last
  {
  }

  /** Over every run the last saved tree is that of the last round that had all of it, under that
      round's epoch: not of a round whose transaction failed. */
  lemma {:induction false} LastIsGreatestIff(p: Params, start: nat, rounds: seq<Round>, i: nat)
    requires RoundsInRange(rounds) && i < |rounds|
    ensures Run(p, start, rounds).last == Some((start + i + 1, ToEntries(p.parse, rounds[i].users))) <==>
      StoresTree(p, rounds[i]) && NoneFrom(p, rounds, i + 1)
  {
    var n := |rounds| - 1;
    EpochCounts(p, start, rounds[..n]);
    TickLast(p, Run(p, start, rounds[..n]), rounds[n]);
    if i < n {
      LastIsGreatestIff(p, start, rounds[..n], i);
      NoneFromSnoc(p, rounds, i + 1);
    } else {
      LastIsOld(p, start, rounds[..n]);
    }
  }

  lemma {:induction false} EpochCounts(p: Params, start: nat, rounds: seq<Round>)
    requires RoundsInRange(rounds)
    ensures Run(p, start, rounds).epoch == start + |rounds|
  {
    if rounds == [] {
    } else {
      EpochCounts(p, start, rounds[..|rounds| - 1]);
    }
  }

  lemma {:induction false} LastIsOld(p: Params, start: nat, rounds: seq<Round>)
    requires RoundsInRange(rounds)
    ensures var s := Run(p, start, rounds); s.last.Some? ==> s.last.value.0 <= start + |rounds|
  {
    if rounds == [] {
    } else {
      LastIsOld(p, start, rounds[..|rounds| - 1]);
      EpochCounts(p, start, rounds[..|rounds| - 1]);
    }
  }

  /** ... and there is none, and the table is empty, exactly when no round had all of it. */
  lemma NothingSavedIff(p: Params, start: nat, rounds: seq<Round>)
    requires ValidParams(p) && GoodRounds(p, rounds)
    ensures var s := Run(p, start, rounds);
      (s.last.None? <==> NoneFrom(p, rounds, 0)) && (s.table == map[] <==> NoneFrom(p, rounds, 0))
  {
    NoneSaved(p, start, rounds);
    TableMirrorsLastTree(p, start, rounds);
    var s := Run(p, start, rounds);
    if s.last.Some? {
      var (e, es) := s.last.value;
      assert (e, p.show(es[0].0)) in s.table;
    }
  }

  lemma {:induction false} NoneSaved(p: Params, start: nat, rounds: seq<Round>)
    requires RoundsInRange(rounds)
    ensures Run(p, start, rounds).last.None? <==> NoneFrom(p, rounds, 0)
  {
    if rounds == [] {
    } else {
      var n := |rounds| - 1;
      NoneSaved(p, start, rounds[..n]);
      TickLast(p, Run(p, start, rounds[..n]), rounds[n]);
      NoneFromSnoc(p, rounds, 0);
    }
  }

  /** A row found by root text and authority verifies against the digest the text spells. */
  lemma FoundRowVerifies(p: Params, start: nat, rounds: seq<Round>, k: Key, root: Digest)
    returns (key: Pubkey, amount: U64)
    requires ValidParams(p) && GoodRounds(p, rounds)
    requires var t := Run(p, start, rounds).table; k in t && t[k].root == Hex.Encode(root)
    ensures var row := Run(p, start, rounds).table[k];
      p.show(key) == k.1 && amount == row.amount && Fold(p.H, HashLeaf(p.H, (key, amount)), row.proof) == root
  {
    TableMirrorsLastTree(p, start, rounds);
    var s := Run(p, start, rounds);
    var (e, es) := s.last.value;
    assert Names(p, es, e, k);
    var i :| 0 <= i < |es| && k == (e, p.show(es[i].0));
    key, amount := es[i].0, es[i].1;
    Hex.EncodeInjective(root, Root(p.H, es));
    PathFoldsToRoot(p.H, Leaves(p.H, es), i);
    assert es[i] == (key, amount);
  }

  // ---------------------------------------------------------------- the publisher's code

  class Publisher {
    const p: Params
    var epoch: nat
    var table: Table

    constructor (p: Params, epoch: nat)
      ensures this.p == p && this.epoch == epoch && table == map[]
    {
      this.p, this.epoch, this.table := p, epoch, map[];
    }

    /** One transaction: drop what is older, then upsert row by row. */
    method SaveMerkleProofs(e: nat, root: Digest, items: seq<Item>)
      modifies this`table
      ensures table == Save(old(table), e, root, items)
    {
      var rootHex := Hex.Encode(root);
      table := DropOlder(table, e);
      for i := 0 to |items|
        invariant table == Upsert(DropOlder(old(table), e), e, root, items[..i])
      {
        assert items[..i + 1][..i] == items[..i];
        table := table[(e, items[i].0) := ProofRow(rootHex, items[i].1, items[i].2)];
      }
      assert items[..|items|] == items;
    }

    /** Read, filter, build, confirm, save; a failure anywhere leaves the table alone. */
    method PublishRoot(r: Round)
      requires ValidParams(p) && GoodUsers(p, r.users)
      modifies this`table
      ensures table == TableAfter(p, old(table), epoch, r)
    {
      if !r.readOk {
        return;
      }
      var entries := ToEntries(p.parse, r.users);
      var tree := BuildMerkleTree(p.H, entries);
      if tree.None? || !r.confirmed {
        return;
      }
      ParsedNames(p, r.users);
      var items := ItemsFromTree(entries, tree.value);
      if r.saved {
        SaveMerkleProofs(epoch, tree.value.root, items);
      }
    }

    /** A tick of the cron: the counter moves, then the publish; `last` is what the run saved so far. */
    method TickOnce(r: Round, ghost last: Option<(nat, seq<Entry>)>)
      requires ValidParams(p) && GoodUsers(p, r.users)
      modifies this
      ensures var after := Tick(p, Process(old(epoch), old(table), last), r);
        epoch == after.epoch && table == after.table
    {
      epoch := epoch + 1;
      PublishRoot(r);
    }

    method ItemsFromTree(entries: seq<Entry>, tree: MerkleTree) returns (items: seq<Item>)
      requires DistinctKeys(entries) && ProofsOf(p.H, entries, |entries|, tree.proofs)
      ensures items == Items(p, entries)
    {
      items := [];
      assert entries[..|entries|] == entries;
      for i := 0 to |entries|
        invariant items == Items(p, entries)[..i]
      {
        assert IsLast(entries, i);
        items := items + [(p.show(entries[i].0), entries[i].1, tree.proofs[entries[i].0])];
      }
    }
  }
}
