/** The earnings ledger's path to the tree: the grouped read, the filter shared by the publisher and
    the proof endpoint, and the root they both build. */
module Earnings {
  import opened Common
  import opened Bytes
  import opened Merkle
  import opened MerkleSoundness

  /** The columns of `rewardz_earnings` that never change after the insert. */
  datatype EarningRow = EarningRow(authority: string, amount: int, createdAt: nat)

  datatype Group = Group(authority: string, total: int)

  /** What the code takes from outside: the hash, base58 parsing and printing of keys, the text
      order of the database, and the cap on the cumulative total. */
  datatype Params = Params(
    H: Hasher,
    parse: string -> Option<Pubkey>,
    show: Pubkey -> string,
    before: (string, string) -> bool,
    cap: nat)

  /** A key has one text form: base58 accepts no second spelling of the same bytes. */
  ghost predicate Canonical(parse: string -> Option<Pubkey>, show: Pubkey -> string) {
    forall s :: parse(s).Some? ==> show(parse(s).value) == s
  }

  ghost predicate ValidParams(p: Params) {
    StrictTotalOrder(p.before) && Canonical(p.parse, p.show)
  }

  // ------------------------------------------------------------ GROUP BY ... ORDER BY

  function SumFor(rows: seq<EarningRow>, authority: string): int {
    if rows == [] then 0
    else
      var last := rows[|rows| - 1];
      SumFor(rows[..|rows| - 1], authority) + if last.authority == authority then last.amount else 0
  }

  ghost predicate Sorted(before: (string, string) -> bool, gs: seq<Group>) {
    forall i, j :: 0 <= i < j < |gs| ==> before(gs[i].authority, gs[j].authority)
  }

  predicate HasGroup(gs: seq<Group>, a: string) {
    exists i :: 0 <= i < |gs| && gs[i].authority == a
  }

  predicate Mentions(rows: seq<EarningRow>, a: string) {
    exists i :: 0 <= i < |rows| && rows[i].authority == a
  }

  /** What the grouped query promises: one group per authority, in text order, with its sum. */
  ghost predicate IsGrouping(before: (string, string) -> bool, rows: seq<EarningRow>, gs: seq<Group>) {
    && Sorted(before, gs)
    && (forall a :: HasGroup(gs, a) <==> Mentions(rows, a))
    && (forall i :: 0 <= i < |gs| ==> gs[i].total == SumFor(rows, gs[i].authority))
  }

  /** Add one row to its group, opening the group in its place when it is new. */
  function AddRow(before: (string, string) -> bool, gs: seq<Group>, row: EarningRow): seq<Group> {
    if gs == [] || before(row.authority, gs[0].authority) then
      [Group(row.authority, row.amount)] + gs
    else if row.authority == gs[0].authority then
      [Group(row.authority, gs[0].total + row.amount)] + gs[1..]
    else
      [gs[0]] + AddRow(before, gs[1..], row)
  }

  function GroupRows(before: (string, string) -> bool, rows: seq<EarningRow>): seq<Group> {
    if rows == [] then []
    else AddRow(before, GroupRows(before, rows[..|rows| - 1]), rows[|rows| - 1])
  }

  function TotalOf(gs: seq<Group>, a: string): int {
    if gs == [] then 0
    else (if gs[0].authority == a then gs[0].total else 0) + TotalOf(gs[1..], a)
  }

  lemma {:induction false} AddRowEffect(before: (string, string) -> bool, gs: seq<Group>, row: EarningRow)
    requires StrictTotalOrder(before) && Sorted(before, gs)
    ensures var out := AddRow(before, gs, row);
      && Sorted(before, out)
      && (forall a :: HasGroup(out, a) <==> HasGroup(gs, a) || a == row.authority)
      && (forall a :: TotalOf(out, a) == TotalOf(gs, a) + if a == row.authority then row.amount else 0)
  {
    var out := AddRow(before, gs, row);
    if gs == [] || before(row.authority, gs[0].authority) {
      assert out[1..] == gs;
      AddedFront(gs, Group(row.authority, row.amount), out);
      forall i, j | 0 <= i < j < |out| ensures before(out[i].authority, out[j].authority) {
        if i == 0 && j > 1 {
          assert before(gs[0].authority, gs[j - 1].authority);
        }
      }
    } else if row.authority == gs[0].authority {
      assert out[1..] == gs[1..];
      AddedFront(gs[1..], out[0], out);
      AddedFront(gs[1..], gs[0], gs);
    } else {
      var rest := AddRow(before, gs[1..], row);
      AddRowEffect(before, gs[1..], row);
      assert out[1..] == rest;
      AddedFront(rest, gs[0], out);
      AddedFront(gs[1..], gs[0], gs);
      forall i, j | 0 <= i < j < |out| ensures before(out[i].authority, out[j].authority) {
        if i == 0 {
          assert HasGroup(rest, rest[j - 1].authority);
          if rest[j - 1].authority != row.authority {
            var m :| 0 <= m < |gs[1..]| && gs[1..][m].authority == rest[j - 1].authority;
            assert before(gs[0].authority, gs[m + 1].authority);
          }
        }
      }
    }
  }

  lemma AddedFront(rest: seq<Group>, g: Group, out: seq<Group>)
    requires out == [g] + rest
    ensures forall a :: HasGroup(out, a) <==> HasGroup(rest, a) || a == g.authority
  {
    forall a ensures HasGroup(out, a) <==> HasGroup(rest, a) || a == g.authority {
      if HasGroup(rest, a) {
        var i :| 0 <= i < |rest| && rest[i].authority == a;
        assert out[i + 1].authority == a;
      }
      if a == g.authority {
        assert out[0].authority == a;
      }
      if HasGroup(out, a) && a != g.authority {
        var i :| 0 <= i < |out| && out[i].authority == a;
        assert rest[i - 1].authority == a;
      }
    }
  }

  lemma {:induction false} TotalOfMember(before: (string, string) -> bool, gs: seq<Group>, i: nat)
    requires StrictTotalOrder(before) && Sorted(before, gs) && i < |gs|
    ensures TotalOf(gs, gs[i].authority) == gs[i].total
  {
    if i > 0 {
      TotalOfMember(before, gs[1..], i - 1);
    } else {
      TotalOfAbsent(gs[1..], gs[0].authority);
    }
  }

  lemma {:induction false} TotalOfAbsent(gs: seq<Group>, a: string)
    requires forall i :: 0 <= i < |gs| ==> gs[i].authority != a
    ensures TotalOf(gs, a) == 0
  {
    if gs == [] {
    } else {
      TotalOfAbsent(gs[1..], a);
    }
  }

  lemma {:induction false} GroupRowsEffect(before: (string, string) -> bool, rows: seq<EarningRow>)
    requires StrictTotalOrder(before)
    ensures Sorted(before, GroupRows(before, rows))
    ensures forall a :: HasGroup(GroupRows(before, rows), a) <==> Mentions(rows, a)
    ensures forall a :: TotalOf(GroupRows(before, rows), a) == SumFor(rows, a)
  {
    if rows == [] {
    } else {
      var init, last := rows[..|rows| - 1], rows[|rows| - 1];
      GroupRowsEffect(before, init);
      AddRowEffect(before, GroupRows(before, init), last);
      forall a ensures Mentions(rows, a) <==> Mentions(init, a) || a == last.authority {
        if Mentions(init, a) {
          var i :| 0 <= i < |init| && init[i].authority == a;
          assert rows[i].authority == a;
        }
        if Mentions(rows, a) && a != last.authority {
          var i :| 0 <= i < |rows| && rows[i].authority == a;
          assert init[i].authority == a;
        }
      }
    }
  }

  /** The row-by-row grouping is the grouping the query promises. */
  lemma GroupRowsIsGrouping(before: (string, string) -> bool, rows: seq<EarningRow>)
    requires StrictTotalOrder(before)
    ensures IsGrouping(before, rows, GroupRows(before, rows))
  {
    GroupRowsEffect(before, rows);
    var gs := GroupRows(before, rows);
    forall i | 0 <= i < |gs| ensures gs[i].total == SumFor(rows, gs[i].authority) {
      TotalOfMember(before, gs, i);
    }
  }

  /** ... and there is only one such list. */
  lemma {:induction false} GroupingUnique(
      before: (string, string) -> bool, rows: seq<EarningRow>, others: seq<EarningRow>,
      f: seq<Group>, g: seq<Group>)
    requires StrictTotalOrder(before) && Sorted(before, f) && Sorted(before, g)
    requires forall a :: HasGroup(f, a) <==> HasGroup(g, a)
    requires forall a :: SumFor(rows, a) == SumFor(others, a)
    requires forall i :: 0 <= i < |f| ==> f[i].total == SumFor(rows, f[i].authority)
    requires forall i :: 0 <= i < |g| ==> g[i].total == SumFor(others, g[i].authority)
    ensures f == g
  {
    if f == [] {
      if g != [] {
        assert HasGroup(g, g[0].authority);
      }
    } else {
      assert HasGroup(f, f[0].authority);
      var j :| 0 <= j < |g| && g[j].authority == f[0].authority;
      assert HasGroup(g, g[0].authority);
      var k :| 0 <= k < |f| && f[k].authority == g[0].authority;
      assert f[0].authority == g[0].authority;
      forall a ensures HasGroup(f[1..], a) <==> HasGroup(g[1..], a) {
        AddedFront(f[1..], f[0], f);
        AddedFront(g[1..], g[0], g);
        assert HasGroup(f[1..], a) ==> a != f[0].authority;
        assert HasGroup(g[1..], a) ==> a != g[0].authority;
      }
      GroupingUnique(before, rows, others, f[1..], g[1..]);
      assert f == [f[0]] + f[1..] && g == [g[0]] + g[1..];
    }
  }

  // ------------------------------------------------------------ from groups to tree entries

  predicate InBigint(g: Group) {
    -I64_MAX - 1 <= g.total <= I64_MAX
  }

  /** The filter both the publisher and the endpoint apply: keep parseable keys with a positive total. */
  function ToEntries(parse: string -> Option<Pubkey>, gs: seq<Group>): seq<Entry>
    requires forall i :: 0 <= i < |gs| ==> InBigint(gs[i])
  {
    if gs == [] then []
    else
      var init := ToEntries(parse, gs[..|gs| - 1]);
      var g := gs[|gs| - 1];
      if parse(g.authority).None? || g.total <= 0 then init
      else
        assert InBigint(g);
        var amount: U64 := g.total;
        init + [(parse(g.authority).value, amount)]
  }

  /** The grouped read followed by the filter. The read fails when a sum leaves BIGINT. */
  function ReadEntries(p: Params, rows: seq<EarningRow>): Result<seq<Entry>> {
    var gs := GroupRows(p.before, rows);
    if forall i :: 0 <= i < |gs| ==> InBigint(gs[i]) then Ok(ToEntries(p.parse, gs)) else Err
  }

  function SumAmounts(es: seq<Entry>): nat {
    if es == [] then 0 else SumAmounts(es[..|es| - 1]) + es[|es| - 1].1
  }

  /** The root that stands for an entry list: the tree's, or 32 zero bytes when there is no entry. */
  function RootOf(H: Hasher, es: seq<Entry>): Digest {
    if es == [] then ZERO_DIGEST else Root(H, es)
  }

  lemma {:induction false} ToEntriesMember(parse: string -> Option<Pubkey>, gs: seq<Group>, e: Entry)
    requires forall i :: 0 <= i < |gs| ==> InBigint(gs[i])
    ensures e in ToEntries(parse, gs) <==>
      exists i :: 0 <= i < |gs| && parse(gs[i].authority) == Some(e.0) && gs[i].total == e.1 && e.1 > 0
  {
    if gs == [] {
    } else {
      var n := |gs| - 1;
      ToEntriesMember(parse, gs[..n], e);
      if parse(gs[n].authority) == Some(e.0) && gs[n].total == e.1 && e.1 > 0 {
        var out := ToEntries(parse, gs);
        assert out[|out| - 1] == e;
      }
      if i :| 0 <= i < n && parse(gs[i].authority) == Some(e.0) && gs[i].total == e.1 && e.1 > 0 {
        assert gs[..n][i] == gs[i];
      }
    }
  }

  /** An entry is in the tree exactly when its key, written as text, has that positive sum. */
  lemma EntryIff(p: Params, rows: seq<EarningRow>, e: Entry)
    requires ValidParams(p) && ReadEntries(p, rows).Ok?
    ensures e in ReadEntries(p, rows).value <==>
      && p.parse(p.show(e.0)) == Some(e.0)
      && e.1 == SumFor(rows, p.show(e.0))
      && e.1 > 0
  {
    var gs := GroupRows(p.before, rows);
    var text := p.show(e.0);
    GroupRowsIsGrouping(p.before, rows);
    ToEntriesMember(p.parse, gs, e);
    if e.1 > 0 && e.1 == SumFor(rows, text) {
      if !Mentions(rows, text) {
        SumForAbsent(rows, text);
        assert false;
      }
      assert HasGroup(gs, text);
    }
  }

  lemma {:induction false} SumForAbsent(rows: seq<EarningRow>, a: string)
    requires !Mentions(rows, a)
    ensures SumFor(rows, a) == 0
  {
    if rows == [] {
    } else {
      var init := rows[..|rows| - 1];
      assert rows[|rows| - 1].authority != a;
      assert forall i :: 0 <= i < |init| ==> init[i] == rows[i];
      SumForAbsent(init, a);
    }
  }

  /** The read fails exactly when some authority's sum does not fit the column type. */
  lemma ReadFailsIff(p: Params, rows: seq<EarningRow>)
    requires ValidParams(p)
    ensures ReadEntries(p, rows).Err? <==>
      exists i :: 0 <= i < |rows|
        && !(-0x8000_0000_0000_0000 <= SumFor(rows, rows[i].authority) <= 0x7FFF_FFFF_FFFF_FFFF)
  {
    var gs := GroupRows(p.before, rows);
    GroupRowsIsGrouping(p.before, rows);
    if i :| 0 <= i < |gs| && !InBigint(gs[i]) {
      assert HasGroup(gs, gs[i].authority);
      var j :| 0 <= j < |rows| && rows[j].authority == gs[i].authority;
      assert !InBigint(Group(rows[j].authority, SumFor(rows, rows[j].authority)));
    }
    if j :| 0 <= j < |rows| && !InBigint(Group(rows[j].authority, SumFor(rows, rows[j].authority))) {
      assert Mentions(rows, rows[j].authority);
      var i :| 0 <= i < |gs| && gs[i].authority == rows[j].authority;
      assert !InBigint(gs[i]);
    }
  }

  /** Keys are unique, so every entry's proof survives in the map. */
  ghost predicate DistinctKeys(es: seq<Entry>) {
    forall i, j :: 0 <= i < j < |es| ==> es[i].0 != es[j].0
  }

  lemma {:induction false} ToEntriesDistinct(p: Params, gs: seq<Group>)
    requires ValidParams(p) && Sorted(p.before, gs)
    requires forall i :: 0 <= i < |gs| ==> InBigint(gs[i])
    ensures DistinctKeys(ToEntries(p.parse, gs))
  {
    if gs == [] {
    } else {
      var n := |gs| - 1;
      var init, es := ToEntries(p.parse, gs[..n]), ToEntries(p.parse, gs);
      ToEntriesDistinct(p, gs[..n]);
      if es != init {
        forall i | 0 <= i < |init| ensures init[i].0 != es[|init|].0 {
          assert init[i] in init;
          ToEntriesMember(p.parse, gs[..n], init[i]);
          var m :| 0 <= m < n && p.parse(gs[m].authority) == Some(init[i].0);
          assert p.before(gs[m].authority, gs[n].authority);
        }
      }
    }
  }

  ghost predicate InTextOrder(p: Params, es: seq<Entry>) {
    forall i, j :: 0 <= i < j < |es| ==> p.before(p.show(es[i].0), p.show(es[j].0))
  }

  /** The entries keep the text order of the groups: with `EntryIff` this fixes the list. */
  lemma EntriesInOrder(p: Params, rows: seq<EarningRow>)
    requires ValidParams(p) && ReadEntries(p, rows).Ok?
    ensures InTextOrder(p, ReadEntries(p, rows).value)
  {
    GroupRowsIsGrouping(p.before, rows);
    ToEntriesInOrder(p, GroupRows(p.before, rows));
  }

  lemma {:induction false} ToEntriesInOrder(p: Params, gs: seq<Group>)
    requires ValidParams(p) && Sorted(p.before, gs)
    requires forall i :: 0 <= i < |gs| ==> InBigint(gs[i])
    ensures InTextOrder(p, ToEntries(p.parse, gs))
  {
    if gs == [] {
    } else {
      var n := |gs| - 1;
      var init := ToEntries(p.parse, gs[..n]);
      ToEntriesInOrder(p, gs[..n]);
      forall i | 0 <= i < |init| ensures p.before(p.show(init[i].0), gs[n].authority) {
        ToEntriesMember(p.parse, gs[..n], init[i]);
        assert init[i] in init;
        var k :| 0 <= k < n && p.parse(gs[..n][k].authority) == Some(init[i].0);
        assert gs[..n][k] == gs[k];
      }
      if ToEntries(p.parse, gs) != init {
        OrderGrows(p, init, ToEntries(p.parse, gs)[|init|]);
      }
    }
  }

  lemma OrderGrows(p: Params, es: seq<Entry>, e: Entry)
    requires InTextOrder(p, es) && forall i :: 0 <= i < |es| ==> p.before(p.show(es[i].0), p.show(e.0))
    ensures InTextOrder(p, es + [e])
  {
  }

  /** Without entries the root is 32 zero bytes. */
  lemma EmptyRoot(H: Hasher, i: nat)
    requires i < 32
    ensures RootOf(H, [])[i] == 0
  {
  }

  lemma EntriesDistinct(p: Params, rows: seq<EarningRow>)
    requires ValidParams(p) && ReadEntries(p, rows).Ok?
    ensures DistinctKeys(ReadEntries(p, rows).value)
  {
    GroupRowsIsGrouping(p.before, rows);
    ToEntriesDistinct(p, GroupRows(p.before, rows));
  }

  // ------------------------------------------------------------ reproducibility

  /** The part of the ledger a root may depend on, as an unordered collection. */
  function Facts(rows: seq<EarningRow>): seq<(string, int)> {
    seq(|rows|, i requires 0 <= i < |rows| => (rows[i].authority, rows[i].amount))
  }

  function SumFacts(fs: seq<(string, int)>, a: string): int {
    if fs == [] then 0
    else
      var last := fs[|fs| - 1];
      SumFacts(fs[..|fs| - 1], a) + if last.0 == a then last.1 else 0
  }

  lemma {:induction false} SumForFacts(rows: seq<EarningRow>, a: string)
    ensures SumFor(rows, a) == SumFacts(Facts(rows), a)
    ensures Mentions(rows, a) <==> exists n :: (a, n) in multiset(Facts(rows))
  {
    if rows == [] {
    } else {
      var init := rows[..|rows| - 1];
      assert Facts(rows)[..|rows| - 1] == Facts(init);
      SumForFacts(init, a);
    }
    if Mentions(rows, a) {
      var i :| 0 <= i < |rows| && rows[i].authority == a;
      assert Facts(rows)[i] == (a, rows[i].amount);
    }
    if n :| (a, n) in multiset(Facts(rows)) {
      var i :| 0 <= i < |rows| && Facts(rows)[i] == (a, n);
      assert rows[i].authority == a;
    }
  }

  /** Removing an element before the last one leaves the last one last. */
  lemma RemoveBeforeLast<T>(a: seq<T>, j: nat)
    requires j < |a| - 1
    ensures var n := |a| - 1; var out := a[..j] + a[j + 1..];
      |out| == n && out[..n - 1] == a[..n][..j] + a[..n][j + 1..] && out[n - 1] == a[n]
  {
  }

  lemma {:induction false} SumFactsRemove(fs: seq<(string, int)>, j: nat, a: string)
    requires j < |fs|
    ensures SumFacts(fs, a) == SumFacts(fs[..j] + fs[j + 1..], a) + if fs[j].0 == a then fs[j].1 else 0
  {
    var n := |fs| - 1;
    if j == n {
      assert fs[..j] + fs[j + 1..] == fs[..n];
    } else {
      SumFactsRemove(fs[..n], j, a);
      RemoveBeforeLast(fs, j);
    }
  }

  lemma MultisetRemove<T>(a: seq<T>, j: nat)
    requires j < |a|
    ensures multiset(a[..j] + a[j + 1..]) == multiset(a) - multiset{a[j]}
  {
    assert a == a[..j] + [a[j]] + a[j + 1..];
  }

  lemma {:induction false} SumFactsPermutation(f: seq<(string, int)>, g: seq<(string, int)>, a: string)
    requires multiset(f) == multiset(g)
    ensures SumFacts(f, a) == SumFacts(g, a)
    decreases |f|
  {
    if f == [] {
      assert |multiset(g)| == 0;
    } else {
      var n := |f| - 1;
      assert f[n] in multiset(g);
      var j :| 0 <= j < |g| && g[j] == f[n];
      var g' := g[..j] + g[j + 1..];
      MultisetRemove(g, j);
      MultisetRemove(f, n);
      assert f[..n] + f[n + 1..] == f[..n];
      SumFactsPermutation(f[..n], g', a);
      SumFactsRemove(g, j, a);
    }
  }

  /** Two ledgers holding the same awards, in any order and with any timestamps, read as the same
      entry list: the publisher's tree and the endpoint's rebuild agree byte for byte. */
  lemma ReproducibleEntries(p: Params, rows: seq<EarningRow>, others: seq<EarningRow>)
    requires ValidParams(p) && multiset(Facts(rows)) == multiset(Facts(others))
    ensures ReadEntries(p, rows) == ReadEntries(p, others)
  {
    var f, g := GroupRows(p.before, rows), GroupRows(p.before, others);
    GroupRowsIsGrouping(p.before, rows);
    GroupRowsIsGrouping(p.before, others);
    forall a ensures SumFor(rows, a) == SumFor(others, a) && (Mentions(rows, a) <==> Mentions(others, a)) {
      SumForFacts(rows, a);
      SumForFacts(others, a);
      SumFactsPermutation(Facts(rows), Facts(others), a);
    }
    GroupingUnique(p.before, rows, others, f, g);
  }

  // ------------------------------------------------------------ growth of the ledger

  ghost predicate NonNegative(rows: seq<EarningRow>) {
    forall i :: 0 <= i < |rows| ==> rows[i].amount >= 0
  }

  lemma {:induction false} SumForGrows(rows: seq<EarningRow>, n: nat, a: string)
    requires n <= |rows| && NonNegative(rows)
    ensures SumFor(rows[..n], a) <= SumFor(rows, a)
  {
    if n < |rows| {
      var init := rows[..|rows| - 1];
      assert init[..n] == rows[..n];
      SumForGrows(init, n, a);
    } else {
      assert rows[..n] == rows;
    }
  }

  /** With non-negative awards a later read keeps every authority and never lowers its leaf. */
  lemma EntriesGrow(p: Params, rows: seq<EarningRow>, n: nat, e: Entry)
    requires ValidParams(p) && n <= |rows| && NonNegative(rows)
    requires ReadEntries(p, rows[..n]).Ok? && ReadEntries(p, rows).Ok?
    requires e in ReadEntries(p, rows[..n]).value
    ensures exists later: U64 :: later >= e.1 && (e.0, later) in ReadEntries(p, rows).value
  {
    var text := p.show(e.0);
    EntryIff(p, rows[..n], e);
    SumForGrows(rows, n, text);
    var total := SumFor(rows, text);
    ReadFailsIff(p, rows);
    if !Mentions(rows, text) {
      SumForAbsent(rows, text);
      assert false;
    }
    var i :| 0 <= i < |rows| && rows[i].authority == text;
    assert InBigint(Group(rows[i].authority, total));
    EntryIff(p, rows, (e.0, total));
    assert (e.0, total) in ReadEntries(p, rows).value;
  }

  ghost predicate Covers(es: seq<Entry>, later: seq<Entry>) {
    forall e :: e in es ==> exists amount: U64 :: amount >= e.1 && (e.0, amount) in later
  }

  lemma {:induction false} SumAmountsRemove(es: seq<Entry>, j: nat)
    requires j < |es|
    ensures SumAmounts(es) == SumAmounts(es[..j] + es[j + 1..]) + es[j].1
  {
    var n := |es| - 1;
    if j == n {
      assert es[..j] + es[j + 1..] == es[..n];
    } else {
      SumAmountsRemove(es[..n], j);
      RemoveBeforeLast(es, j);
    }
  }

  lemma {:induction false} CoveredSumGrows(es: seq<Entry>, later: seq<Entry>)
    requires DistinctKeys(es) && Covers(es, later)
    ensures SumAmounts(es) <= SumAmounts(later)
    decreases |es|
  {
    if es == [] {
    } else {
      var n := |es| - 1;
      assert es[n] in es;
      var amount: U64 :| amount >= es[n].1 && (es[n].0, amount) in later;
      var j :| 0 <= j < |later| && later[j] == (es[n].0, amount);
      var rest := later[..j] + later[j + 1..];
      forall e | e in es[..n] ensures exists a: U64 :: a >= e.1 && (e.0, a) in rest {
        assert e in es;
        var a: U64 :| a >= e.1 && (e.0, a) in later;
        var m :| 0 <= m < |later| && later[m] == (e.0, a);
        assert m != j;
        assert (e.0, a) in rest;
      }
      CoveredSumGrows(es[..n], rest);
      SumAmountsRemove(later, j);
    }
  }

  /** The publisher refuses to publish this ledger: a sum overflows or the total is over the cap. */
  ghost predicate Blocked(p: Params, rows: seq<EarningRow>) {
    match ReadEntries(p, rows)
    case Err => true
    case Ok(es) => SumAmounts(es) > p.cap
  }

  /** With non-negative awards a ledger that is refused stays refused. */
  lemma BlockedForever(p: Params, rows: seq<EarningRow>, n: nat)
    requires ValidParams(p) && n <= |rows| && NonNegative(rows) && Blocked(p, rows[..n])
    ensures Blocked(p, rows)
  {
    if ReadEntries(p, rows).Ok? {
      if ReadEntries(p, rows[..n]).Err? {
        OverflowStays(p, rows, n);
      } else {
        var es, later := ReadEntries(p, rows[..n]).value, ReadEntries(p, rows).value;
        EntriesDistinct(p, rows[..n]);
        forall e | e in es ensures exists amount: U64 :: amount >= e.1 && (e.0, amount) in later {
          EntriesGrow(p, rows, n, e);
        }
        CoveredSumGrows(es, later);
      }
    }
  }

  lemma OverflowStays(p: Params, rows: seq<EarningRow>, n: nat)
    requires ValidParams(p) && n <= |rows| && NonNegative(rows) && ReadEntries(p, rows[..n]).Err?
    ensures ReadEntries(p, rows).Err?
  {
    ReadFailsIff(p, rows[..n]);
    var i :| 0 <= i < |rows[..n]|
      && !(-0x8000_0000_0000_0000 <= SumFor(rows[..n], rows[..n][i].authority) <= 0x7FFF_FFFF_FFFF_FFFF);
    assert rows[..n][i] == rows[i];
    SumForGrows(rows[..n], 0, rows[i].authority);
    assert rows[..n][..0] == [];
    SumForGrows(rows, n, rows[i].authority);
    assert !(-0x8000_0000_0000_0000 <= SumFor(rows, rows[i].authority) <= 0x7FFF_FFFF_FFFF_FFFF);
    ReadFailsIff(p, rows);
  }
}
