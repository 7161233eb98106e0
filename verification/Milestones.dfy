/** The milestone processor: nine predicates over the event log, each paying a protocol at most once. */
module Milestones {
  import opened Common

  type Id = string

  datatype Protocol = Protocol(id: Id, admin: string, active: bool)
  datatype PointEvent = PointEvent(protocol: Id, wallet: string, awarded: bool, at: int)

  /** The tables one statement sees. `flagged` holds the protocols with an open abuse flag. */
  datatype World = World(
    protocols: seq<Protocol>,
    flagged: set<Id>,
    weights: map<(Id, string), real>,
    events: seq<PointEvent>,
    gapHours: nat)

  datatype Reward = Reward(slug: string, milestone: int, amount: int)

  /** A milestone row of `rewardz_earnings`. */
  datatype Award = Award(protocol: Id, authority: string, amount: int, slug: string, milestone: int)

  // ---------------------------------------------------------------- predicates

  function OutsideWallets(w: World, p: Protocol): set<string> {
    set i | 0 <= i < |w.events| && w.events[i].protocol == p.id && w.events[i].wallet != p.admin
      :: w.events[i].wallet
  }

  predicate IsRepeat(w: World, p: Protocol, wallet: string) {
    exists i, j :: 0 <= i < |w.events| && 0 <= j < |w.events|
      && w.events[i].protocol == p.id && w.events[i].wallet == wallet
      && w.events[j].protocol == p.id && w.events[j].wallet == wallet
      && w.events[j].at - w.events[i].at >= w.gapHours * 3600
  }

  function RepeatWallets(w: World, p: Protocol): set<string> {
    set wallet | wallet in OutsideWallets(w, p) && IsRepeat(w, p, wallet)
  }

  predicate Qualifies(w: World, slug: string, p: Protocol) {
    if slug == "first_blink" then exists i :: 0 <= i < |w.events| && w.events[i].protocol == p.id
    else if slug == "first_issuance" then
      exists i :: 0 <= i < |w.events|
        && w.events[i].protocol == p.id && w.events[i].awarded && w.events[i].wallet != p.admin
    else if slug == "first_five_unique_wallets" then |OutsideWallets(w, p)| >= 5
    else if slug == "twenty_five_unique_wallets" then |OutsideWallets(w, p)| >= 25
    else if slug == "first_repeat_user" then |RepeatWallets(w, p)| >= 1
    else if slug == "ten_repeat_users" then |RepeatWallets(w, p)| >= 10
    else false    // first_stake, follow_league, launch_thread and unknown slugs pay nothing
  }

  // ---------------------------------------------------------------- what the slugs mean

  /** A wallet other than the admin's used the protocol. */
  ghost predicate IsUser(w: World, p: Protocol, wallet: string) {
    wallet != p.admin
    && exists i :: 0 <= i < |w.events| && w.events[i].protocol == p.id && w.events[i].wallet == wallet
  }

  /** ... and again, at least `gapHours` hours later. */
  ghost predicate IsRepeatUser(w: World, p: Protocol, wallet: string) {
    IsUser(w, p, wallet)
    && exists i, j :: 0 <= i < |w.events| && 0 <= j < |w.events|
         && w.events[i].protocol == p.id && w.events[i].wallet == wallet
         && w.events[j].protocol == p.id && w.events[j].wallet == wallet
         && w.events[j].at - w.events[i].at >= w.gapHours * 60 * 60
  }

  ghost predicate Distinct(wallets: seq<string>) {
    forall i, j :: 0 <= i < j < |wallets| ==> wallets[i] != wallets[j]
  }

  ghost predicate HasUsers(w: World, p: Protocol, n: nat) {
    exists wallets: seq<string> :: |wallets| == n && Distinct(wallets)
      && forall k :: 0 <= k < n ==> IsUser(w, p, wallets[k])
  }

  ghost predicate HasRepeatUsers(w: World, p: Protocol, n: nat) {
    exists wallets: seq<string> :: |wallets| == n && Distinct(wallets)
      && forall k :: 0 <= k < n ==> IsRepeatUser(w, p, wallets[k])
  }

  lemma UsersCounted(w: World, p: Protocol, n: nat)
    ensures |OutsideWallets(w, p)| >= n <==> HasUsers(w, p, n)
  {
    forall x ensures x in OutsideWallets(w, p) <==> IsUser(w, p, x) {
    }
    if |OutsideWallets(w, p)| >= n {
      var wallets := ListSome(OutsideWallets(w, p), n);
      assert Distinct(wallets);
    }
    if HasUsers(w, p, n) {
      var wallets: seq<string> :| |wallets| == n && Distinct(wallets)
        && forall k :: 0 <= k < n ==> IsUser(w, p, wallets[k]);
      ListedFit(OutsideWallets(w, p), wallets);
    }
  }

  lemma RepeatUsersCounted(w: World, p: Protocol, n: nat)
    ensures |RepeatWallets(w, p)| >= n <==> HasRepeatUsers(w, p, n)
  {
    forall x ensures x in RepeatWallets(w, p) <==> IsRepeatUser(w, p, x) {
      assert x in OutsideWallets(w, p) <==> IsUser(w, p, x);
      assert w.gapHours * 3600 == w.gapHours * 60 * 60;
    }
    if |RepeatWallets(w, p)| >= n {
      var wallets := ListSome(RepeatWallets(w, p), n);
      assert Distinct(wallets);
    }
    if HasRepeatUsers(w, p, n) {
      var wallets: seq<string> :| |wallets| == n && Distinct(wallets)
        && forall k :: 0 <= k < n ==> IsRepeatUser(w, p, wallets[k]);
      ListedFit(RepeatWallets(w, p), wallets);
    }
  }

  /** The user milestones, by listing users: five, twenty-five, one repeat, ten repeats. */
  lemma UserSlugsMean(w: World, p: Protocol)
    ensures Qualifies(w, "first_five_unique_wallets", p) <==> HasUsers(w, p, 5)
    ensures Qualifies(w, "twenty_five_unique_wallets", p) <==> HasUsers(w, p, 25)
    ensures Qualifies(w, "first_repeat_user", p) <==> HasRepeatUsers(w, p, 1)
    ensures Qualifies(w, "ten_repeat_users", p) <==> HasRepeatUsers(w, p, 10)
  {
    UsersCounted(w, p, 5);
    UsersCounted(w, p, 25);
    RepeatUsersCounted(w, p, 1);
    RepeatUsersCounted(w, p, 10);
  }

  const PAYING_SLUGS := [
    "first_blink", "first_issuance", "first_five_unique_wallets", "twenty_five_unique_wallets",
    "first_repeat_user", "ten_repeat_users"]

  /** The event milestones; every other slug, implemented later or unknown, pays nothing. */
  lemma EventSlugsMean(w: World, p: Protocol, slug: string)
    ensures Qualifies(w, "first_blink", p) <==> exists e :: e in w.events && e.protocol == p.id
    ensures Qualifies(w, "first_issuance", p) <==>
      exists e :: e in w.events && e.protocol == p.id && e.awarded && e.wallet != p.admin
    ensures slug !in PAYING_SLUGS ==> !Qualifies(w, slug, p)
  {
    forall i | 0 <= i < |w.events| ensures w.events[i] in w.events {
    }
  }

  // ---------------------------------------------------------------- one statement

  predicate Earned(ledger: seq<Award>, id: Id, milestone: int) {
    exists i :: 0 <= i < |ledger| && ledger[i].protocol == id && ledger[i].milestone == milestone
  }

  predicate Eligible(w: World, ledger: seq<Award>, r: Reward, p: Protocol) {
    p.active && p.id !in w.flagged && !Earned(ledger, p.id, r.milestone) && Qualifies(w, r.slug, p)
  }

  /** The admin wallet's weight, 1 when there is none, scales the reward; the product is floored. */
  function AwardFor(w: World, r: Reward, p: Protocol): Award {
    var weight := if (p.id, p.admin) in w.weights then w.weights[(p.id, p.admin)] else 1.0;
    Award(p.id, p.admin, (r.amount as real * weight).Floor, r.slug, r.milestone)
  }

  /** Who is paid for what, and how much: the reward itself without a weight, and with one the largest
      whole number not above the weighted reward. */
  lemma AwardIs(w: World, r: Reward, p: Protocol)
    ensures var a := AwardFor(w, r, p);
      && a.protocol == p.id && a.authority == p.admin && a.slug == r.slug && a.milestone == r.milestone
      && (if (p.id, p.admin) in w.weights then
            var exact := r.amount as real * w.weights[(p.id, p.admin)];
            a.amount as real <= exact < (a.amount + 1) as real
          else a.amount == r.amount)
  {
    assert r.amount as real * 1.0 == r.amount as real;
  }

  function NewAwards(w: World, ledger: seq<Award>, r: Reward, ps: seq<Protocol>): seq<Award> {
    if ps == [] then []
    else
      var p := ps[|ps| - 1];
      NewAwards(w, ledger, r, ps[..|ps| - 1]) + if Eligible(w, ledger, r, p) then [AwardFor(w, r, p)] else []
  }

  function Insert(w: World, ledger: seq<Award>, r: Reward): seq<Award> {
    ledger + NewAwards(w, ledger, r, w.protocols)
  }

  function Tick(w: World, ledger: seq<Award>, rewards: seq<Reward>): seq<Award> {
    if rewards == [] then ledger
    else Insert(w, Tick(w, ledger, rewards[..|rewards| - 1]), rewards[|rewards| - 1])
  }

  ghost predicate DistinctProtocols(ps: seq<Protocol>) {
    forall i, j :: 0 <= i < j < |ps| ==> ps[i].id != ps[j].id
  }

  ghost predicate DistinctMilestones(rewards: seq<Reward>) {
    forall i, j :: 0 <= i < j < |rewards| ==> rewards[i].milestone != rewards[j].milestone
  }

  ghost predicate AtMostOnce(ledger: seq<Award>) {
    forall i, j :: 0 <= i < j < |ledger| ==>
      ledger[i].protocol != ledger[j].protocol || ledger[i].milestone != ledger[j].milestone
  }

  /** Exactly the eligible protocols are paid by a statement. */
  lemma {:induction false} NewAwardsMember(w: World, ledger: seq<Award>, r: Reward, ps: seq<Protocol>, a: Award)
    ensures a in NewAwards(w, ledger, r, ps) <==>
      exists i :: 0 <= i < |ps| && Eligible(w, ledger, r, ps[i]) && a == AwardFor(w, r, ps[i])
  {
    if ps == [] {
    } else {
      var n := |ps| - 1;
      NewAwardsMember(w, ledger, r, ps[..n], a);
      if i :| 0 <= i < n && Eligible(w, ledger, r, ps[i]) && a == AwardFor(w, r, ps[i]) {
        assert ps[..n][i] == ps[i];
      }
    }
  }

  lemma {:induction false} NewAwardsOnce(w: World, ledger: seq<Award>, r: Reward, ps: seq<Protocol>)
    requires DistinctProtocols(ps)
    ensures AtMostOnce(NewAwards(w, ledger, r, ps))
  {
    if ps == [] {
    } else {
      var n := |ps| - 1;
      var init := NewAwards(w, ledger, r, ps[..n]);
      NewAwardsOnce(w, ledger, r, ps[..n]);
      forall i | 0 <= i < |init| ensures init[i].protocol != ps[n].id {
        NewAwardsMember(w, ledger, r, ps[..n], init[i]);
      }
    }
  }

  lemma InsertKeepsOnce(w: World, ledger: seq<Award>, r: Reward)
    requires DistinctProtocols(w.protocols) && AtMostOnce(ledger)
    ensures AtMostOnce(Insert(w, ledger, r))
  {
    var added := NewAwards(w, ledger, r, w.protocols);
    NewAwardsOnce(w, ledger, r, w.protocols);
    forall i, j | 0 <= i < |ledger| && 0 <= j < |added|
      ensures ledger[i].protocol != added[j].protocol || ledger[i].milestone != added[j].milestone
    {
      NewAwardsMember(w, ledger, r, w.protocols, added[j]);
      var k :| 0 <= k < |w.protocols|
        && Eligible(w, ledger, r, w.protocols[k]) && added[j] == AwardFor(w, r, w.protocols[k]);
      assert !Earned(ledger, w.protocols[k].id, r.milestone);
    }
  }

  // ---------------------------------------------------------------- whole runs

  /** One statement of a run: the tables it saw are whatever they had become by then. */
  datatype Statement = Statement(w: World, r: Reward, ok: bool)

  function Run(ledger: seq<Award>, run: seq<Statement>): seq<Award> {
    if run == [] then ledger
    else
      var before := Run(ledger, run[..|run| - 1]);
      var s := run[|run| - 1];
      if s.ok then Insert(s.w, before, s.r) else before
  }

  /** Over any run, with tables changing at will between statements, no protocol is paid a milestone
      twice, and every payment was made by a statement that saw the protocol active, unflagged and
      qualified. */
  lemma {:induction false} RunPaysOnceAndClean(ledger: seq<Award>, run: seq<Statement>)
    requires AtMostOnce(ledger)
    requires forall i :: 0 <= i < |run| ==> DistinctProtocols(run[i].w.protocols)
    ensures AtMostOnce(Run(ledger, run))
    ensures forall a :: a in Run(ledger, run) && a !in ledger ==>
      exists i :: 0 <= i < |run| && PaidBy(run[i], a)
  {
    if run == [] {
    } else {
      var n := |run| - 1;
      var init := run[..n];
      RunPaysOnceAndClean(ledger, init);
      var before := Run(ledger, init);
      if run[n].ok {
        InsertKeepsOnce(run[n].w, before, run[n].r);
      }
      forall a | a in Run(ledger, run) && a !in ledger ensures exists i :: 0 <= i < |run| && PaidBy(run[i], a) {
        if a in before {
          var i :| 0 <= i < |init| && PaidBy(init[i], a);
          assert PaidBy(run[i], a);
        } else {
          NewAwardsMember(run[n].w, before, run[n].r, run[n].w.protocols, a);
          assert PaidBy(run[n], a);
        }
      }
    }
  }

  ghost predicate PaidBy(s: Statement, a: Award) {
    && s.ok
    && (exists k :: 0 <= k < |s.w.protocols|
          && s.w.protocols[k].active && s.w.protocols[k].id !in s.w.flagged
          && Qualifies(s.w, s.r.slug, s.w.protocols[k]) && a == AwardFor(s.w, s.r, s.w.protocols[k]))
  }

  // ---------------------------------------------------------------- one tick

  lemma {:induction false} TickGrows(w: World, ledger: seq<Award>, rewards: seq<Reward>)
    ensures ledger <= Tick(w, ledger, rewards)
  {
    if rewards == [] {
    } else {
      TickGrows(w, ledger, rewards[..|rewards| - 1]);
    }
  }

  lemma EarnedGrows(ledger: seq<Award>, more: seq<Award>, id: Id, milestone: int)
    requires ledger <= more && Earned(ledger, id, milestone)
    ensures Earned(more, id, milestone)
  {
    var i :| 0 <= i < |ledger| && ledger[i].protocol == id && ledger[i].milestone == milestone;
    assert more[i] == ledger[i];
  }

  ghost predicate Owed(w: World, ledger: seq<Award>, rewards: seq<Reward>, a: Award) {
    exists i, k :: 0 <= i < |rewards| && 0 <= k < |w.protocols|
      && Eligible(w, ledger, rewards[i], w.protocols[k]) && a == AwardFor(w, rewards[i], w.protocols[k])
  }

  /** Two reward rows of one milestone that would pay `p` differently. */
  ghost predicate Races(w: World, ledger: seq<Award>, a: Reward, b: Reward, p: Protocol) {
    && a.milestone == b.milestone
    && Eligible(w, ledger, a, p) && Eligible(w, ledger, b, p)
    && AwardFor(w, a, p) != AwardFor(w, b, p)
  }

  ghost predicate NoRace(w: World, ledger: seq<Award>, rewards: seq<Reward>) {
    forall a, b, p :: a in rewards && b in rewards && p in w.protocols ==> !Races(w, ledger, a, b, p)
  }

  /** A row the tick has already paid for `r`'s milestone is the one `r` would pay. */
  lemma PaidTheSame(w: World, ledger: seq<Award>, rewards: seq<Reward>, r: Reward, p: Protocol, x: Award)
    requires DistinctProtocols(w.protocols) && NoRace(w, ledger, rewards + [r])
    requires p in w.protocols && Eligible(w, ledger, r, p)
    requires Owed(w, ledger, rewards, x) && x.protocol == p.id && x.milestone == r.milestone
    ensures x == AwardFor(w, r, p)
  {
    var i, k :| 0 <= i < |rewards| && 0 <= k < |w.protocols|
      && Eligible(w, ledger, rewards[i], w.protocols[k]) && x == AwardFor(w, rewards[i], w.protocols[k]);
    assert w.protocols[k] == p;
    assert rewards[i] in rewards + [r] && r in rewards + [r];
    assert !Races(w, ledger, rewards[i], r, p);
  }

  /** What `init` has paid is what was owed over it. */
  ghost predicate PaysOwed(w: World, ledger: seq<Award>, init: seq<Reward>) {
    forall x :: x in Tick(w, ledger, init) <==> x in ledger || Owed(w, ledger, init, x)
  }

  /** Whoever was eligible for the last row when the tick began still is, or has just been paid its
      award by a row before it. */
  lemma StillEligible(w: World, ledger: seq<Award>, init: seq<Reward>, r: Reward, p: Protocol)
    requires DistinctProtocols(w.protocols) && NoRace(w, ledger, init + [r])
    requires p in w.protocols && PaysOwed(w, ledger, init)
    ensures var before := Tick(w, ledger, init);
      && (Eligible(w, before, r, p) ==> Eligible(w, ledger, r, p))
      && (Eligible(w, ledger, r, p) ==> Eligible(w, before, r, p) || AwardFor(w, r, p) in before)
  {
    var before := Tick(w, ledger, init);
    TickGrows(w, ledger, init);
    if Earned(ledger, p.id, r.milestone) {
      EarnedGrows(ledger, before, p.id, r.milestone);
    } else if Earned(before, p.id, r.milestone) && Eligible(w, ledger, r, p) {
      var m :| 0 <= m < |before| && before[m].protocol == p.id && before[m].milestone == r.milestone;
      assert before[m] in before;
      assert before[m] !in ledger;
      PaidTheSame(w, ledger, init, r, p, before[m]);
    }
  }

  /** The ledger after a tick without races is the ledger before plus what was owed then: no mention
      of order. */
  lemma {:induction false} TickMember(w: World, ledger: seq<Award>, rewards: seq<Reward>, a: Award)
    requires DistinctProtocols(w.protocols) && NoRace(w, ledger, rewards)
    ensures a in Tick(w, ledger, rewards) <==> a in ledger || Owed(w, ledger, rewards, a)
  {
    if rewards == [] {
    } else {
      var n := |rewards| - 1;
      var init, r := rewards[..n], rewards[n];
      assert rewards == init + [r];
      forall x ensures x in Tick(w, ledger, init) <==> x in ledger || Owed(w, ledger, init, x) {
        TickMember(w, ledger, init, x);
      }
      NewAwardsMember(w, Tick(w, ledger, init), r, w.protocols, a);
      OwedSnoc(w, ledger, rewards, a);
      forall p | p in w.protocols {
        StillEligible(w, ledger, init, r, p);
      }
    }
  }

  lemma OwedSnoc(w: World, ledger: seq<Award>, rewards: seq<Reward>, a: Award)
    requires rewards != []
    ensures var n := |rewards| - 1;
      Owed(w, ledger, rewards, a) <==>
        Owed(w, ledger, rewards[..n], a)
        || exists k :: 0 <= k < |w.protocols|
             && Eligible(w, ledger, rewards[n], w.protocols[k]) && a == AwardFor(w, rewards[n], w.protocols[k])
  {
    var n := |rewards| - 1;
    if Owed(w, ledger, rewards[..n], a) {
      var i, k :| 0 <= i < n && 0 <= k < |w.protocols|
        && Eligible(w, ledger, rewards[..n][i], w.protocols[k]) && a == AwardFor(w, rewards[..n][i], w.protocols[k]);
      assert rewards[i] == rewards[..n][i];
    }
    if Owed(w, ledger, rewards, a) {
      var i, k :| 0 <= i < |rewards| && 0 <= k < |w.protocols|
        && Eligible(w, ledger, rewards[i], w.protocols[k]) && a == AwardFor(w, rewards[i], w.protocols[k]);
      if i < n {
        assert rewards[..n][i] == rewards[i];
      }
    }
  }

  lemma {:induction false} TickKeepsOnce(w: World, ledger: seq<Award>, rewards: seq<Reward>)
    requires DistinctProtocols(w.protocols) && AtMostOnce(ledger)
    ensures AtMostOnce(Tick(w, ledger, rewards))
  {
    if rewards == [] {
    } else {
      var n := |rewards| - 1;
      TickKeepsOnce(w, ledger, rewards[..n]);
      InsertKeepsOnce(w, Tick(w, ledger, rewards[..n]), rewards[n]);
    }
  }

  /** Without races the reward rows may come in any order, and any number of times. */
  lemma TickConfluent(w: World, ledger: seq<Award>, rewards: seq<Reward>, others: seq<Reward>)
    requires DistinctProtocols(w.protocols) && AtMostOnce(ledger) && NoRace(w, ledger, rewards)
    requires forall r :: r in rewards <==> r in others
    ensures multiset(Tick(w, ledger, rewards)) == multiset(Tick(w, ledger, others))
  {
    var a, b := Tick(w, ledger, rewards), Tick(w, ledger, others);
    TickKeepsOnce(w, ledger, rewards);
    TickKeepsOnce(w, ledger, others);
    forall x ensures x in a <==> x in b {
      TickMember(w, ledger, rewards, x);
      TickMember(w, ledger, others, x);
      OwedBySet(w, ledger, rewards, others, x);
      OwedBySet(w, ledger, others, rewards, x);
    }
    SameElementsSameMultiset(a, b);
  }

  lemma OwedBySet(w: World, ledger: seq<Award>, rewards: seq<Reward>, others: seq<Reward>, a: Award)
    requires forall r :: r in rewards ==> r in others
    ensures Owed(w, ledger, rewards, a) ==> Owed(w, ledger, others, a)
  {
    if Owed(w, ledger, rewards, a) {
      var i, k :| 0 <= i < |rewards| && 0 <= k < |w.protocols|
        && Eligible(w, ledger, rewards[i], w.protocols[k]) && a == AwardFor(w, rewards[i], w.protocols[k]);
      assert rewards[i] in others;
      var j :| 0 <= j < |others| && others[j] == rewards[i];
    }
  }

  /** The order of the reward rows does not show: every permutation of them leaves the same ledger. */
  ghost predicate OrderFree(w: World, ledger: seq<Award>, rewards: seq<Reward>) {
    forall others: seq<Reward> :: multiset(others) == multiset(rewards) ==>
      multiset(Tick(w, ledger, others)) == multiset(Tick(w, ledger, rewards))
  }

  /** Nothing makes the reward rows distinct, so their order can show. It does exactly when two rows
      of one milestone would pay one protocol differently. */
  lemma OrderFreeIffNoRace(w: World, ledger: seq<Award>, rewards: seq<Reward>)
    requires DistinctProtocols(w.protocols) && AtMostOnce(ledger)
    ensures OrderFree(w, ledger, rewards) <==> NoRace(w, ledger, rewards)
  {
    if NoRace(w, ledger, rewards) {
      forall others: seq<Reward> | multiset(others) == multiset(rewards)
        ensures multiset(Tick(w, ledger, others)) == multiset(Tick(w, ledger, rewards))
      {
        SameRows(others, rewards);
        TickConfluent(w, ledger, rewards, others);
      }
    } else {
      var a, b, p :| a in rewards && b in rewards && p in w.protocols && Races(w, ledger, a, b, p);
      RaceShows(w, ledger, rewards, a, b, p);
    }
  }

  lemma SameRows(a: seq<Reward>, b: seq<Reward>)
    requires multiset(a) == multiset(b)
    ensures forall r :: r in a <==> r in b
  {
    assert forall r :: r in a <==> r in multiset(a);
    assert forall r :: r in b <==> r in multiset(b);
  }

  /** Put first, each racing row pays its own award, and the other's stays out. */
  lemma RaceShows(w: World, ledger: seq<Award>, rewards: seq<Reward>, a: Reward, b: Reward, p: Protocol)
    requires DistinctProtocols(w.protocols) && AtMostOnce(ledger)
    requires a in rewards && b in rewards && p in w.protocols && Races(w, ledger, a, b, p)
    ensures !OrderFree(w, ledger, rewards)
  {
    var xs := PutFirst(w, ledger, rewards, a, b, p);
    var ys := PutFirst(w, ledger, rewards, b, a, p);
    Differ(Tick(w, ledger, xs), Tick(w, ledger, ys), AwardFor(w, a, p));
  }

  lemma PutFirst(w: World, ledger: seq<Award>, rewards: seq<Reward>, a: Reward, b: Reward, p: Protocol)
    returns (others: seq<Reward>)
    requires DistinctProtocols(w.protocols) && AtMostOnce(ledger)
    requires a in rewards && p in w.protocols && Races(w, ledger, a, b, p)
    ensures multiset(others) == multiset(rewards)
    ensures AwardFor(w, a, p) in Tick(w, ledger, others) && AwardFor(w, b, p) !in Tick(w, ledger, others)
  {
    var rest := Without(rewards, a);
    others := [a] + rest;
    FirstIsPaid(w, ledger, a, rest, p);
    TickKeepsOnce(w, ledger, others);
    OnlyOne(Tick(w, ledger, others), AwardFor(w, a, p), AwardFor(w, b, p));
  }

  lemma Differ(x: seq<Award>, y: seq<Award>, a: Award)
    requires a in x && a !in y
    ensures multiset(x) != multiset(y)
  {
    assert a in multiset(x) && a !in multiset(y);
  }

  lemma OnlyOne(ledger: seq<Award>, x: Award, y: Award)
    requires AtMostOnce(ledger) && x in ledger
    requires x != y && x.protocol == y.protocol && x.milestone == y.milestone
    ensures y !in ledger
  {
  }

  lemma Without(rewards: seq<Reward>, r: Reward) returns (rest: seq<Reward>)
    requires r in rewards
    ensures multiset([r] + rest) == multiset(rewards)
  {
    var i :| 0 <= i < |rewards| && rewards[i] == r;
    rest := rewards[..i] + rewards[i + 1..];
    assert rewards == rewards[..i] + [r] + rewards[i + 1..];
  }

  lemma {:induction false} FirstIsPaid(w: World, ledger: seq<Award>, r: Reward, rest: seq<Reward>, p: Protocol)
    requires p in w.protocols && Eligible(w, ledger, r, p)
    ensures AwardFor(w, r, p) in Tick(w, ledger, [r] + rest)
    decreases |rest|
  {
    var all := [r] + rest;
    if rest == [] {
      assert all[..0] == [] && Tick(w, ledger, []) == ledger;
      NewAwardsMember(w, ledger, r, w.protocols, AwardFor(w, r, p));
    } else {
      var n := |rest| - 1;
      FirstIsPaid(w, ledger, r, rest[..n], p);
      assert all[..|all| - 1] == [r] + rest[..n];
    }
  }

  /** Rows of distinct milestones never race. */
  lemma DistinctIdsNeverRace(w: World, ledger: seq<Award>, rewards: seq<Reward>)
    requires DistinctMilestones(rewards)
    ensures NoRace(w, ledger, rewards)
  {
  }

  /** A race the tables allow: two reward rows of one milestone for an active, unflagged protocol
      with one event, worth 1 and 2. */
  lemma RewardsCanRace(w: World, a: Reward, b: Reward)
    requires w == World([Protocol("p", "admin", true)], {}, map[], [PointEvent("p", "user", true, 0)], 1)
    requires a == Reward("first_blink", 1, 1) && b == Reward("first_blink", 1, 2)
    ensures Races(w, [], a, b, w.protocols[0]) && !OrderFree(w, [], [a, b])
  {
    var p := w.protocols[0];
    assert w.events[0].protocol == p.id;
    assert (1 as real * 1.0).Floor == 1 && (2 as real * 1.0).Floor == 2;
    assert Eligible(w, [], a, p) && Eligible(w, [], b, p);
    assert a in [a, b] && b in [a, b] && p in w.protocols;
    RaceShows(w, [], [a, b], a, b, p);
  }

  /** A statement repeated on unchanged tables inserts nothing. */
  lemma {:induction false} NothingLeft(w: World, ledger: seq<Award>, r: Reward, ps: seq<Protocol>)
    requires forall k :: 0 <= k < |ps| ==> !Eligible(w, ledger, r, ps[k])
    ensures NewAwards(w, ledger, r, ps) == []
  {
    if ps == [] {
    } else {
      NothingLeft(w, ledger, r, ps[..|ps| - 1]);
    }
  }

  lemma EarnedAfterInsert(w: World, ledger: seq<Award>, r: Reward, p: Protocol)
    requires p in w.protocols && p.active && p.id !in w.flagged && Qualifies(w, r.slug, p)
    ensures Earned(Insert(w, ledger, r), p.id, r.milestone)
  {
    if Earned(ledger, p.id, r.milestone) {
      EarnedGrows(ledger, Insert(w, ledger, r), p.id, r.milestone);
    } else {
      var k :| 0 <= k < |w.protocols| && w.protocols[k] == p;
      var out, a := Insert(w, ledger, r), AwardFor(w, r, p);
      assert Eligible(w, ledger, r, w.protocols[k]);
      NewAwardsMember(w, ledger, r, w.protocols, a);
      assert a in out;
      var m :| 0 <= m < |out| && out[m] == a;
    }
  }

  /** After a tick every active, unflagged, qualified protocol has the milestone. */
  lemma {:induction false} EarnedAfterTick(w: World, ledger: seq<Award>, rewards: seq<Reward>, r: Reward, p: Protocol)
    requires r in rewards && p in w.protocols
    requires p.active && p.id !in w.flagged && Qualifies(w, r.slug, p)
    ensures Earned(Tick(w, ledger, rewards), p.id, r.milestone)
  {
    var n := |rewards| - 1;
    var before := Tick(w, ledger, rewards[..n]);
    if rewards[n] == r {
      EarnedAfterInsert(w, before, r, p);
    } else {
      assert r in rewards[..n];
      EarnedAfterTick(w, ledger, rewards[..n], r, p);
      EarnedGrows(before, Insert(w, before, rewards[n]), p.id, r.milestone);
    }
  }

  lemma {:induction false} TickTwice(w: World, ledger: seq<Award>, rewards: seq<Reward>, n: nat)
    requires n <= |rewards|
    ensures Tick(w, Tick(w, ledger, rewards), rewards[..n]) == Tick(w, ledger, rewards)
  {
    if n == 0 {
    } else {
      var done := Tick(w, ledger, rewards);
      TickTwice(w, ledger, rewards, n - 1);
      assert rewards[..n][..n - 1] == rewards[..n - 1];
      forall k | 0 <= k < |w.protocols| ensures !Eligible(w, done, rewards[n - 1], w.protocols[k]) {
        if Eligible(w, done, rewards[n - 1], w.protocols[k]) {
          EarnedAfterTick(w, ledger, rewards, rewards[n - 1], w.protocols[k]);
        }
      }
      NothingLeft(w, done, rewards[n - 1], w.protocols);
    }
  }

  /** A second tick on unchanged tables adds nothing. */
  lemma TickIdempotent(w: World, ledger: seq<Award>, rewards: seq<Reward>)
    ensures Tick(w, Tick(w, ledger, rewards), rewards) == Tick(w, ledger, rewards)
  {
    TickTwice(w, ledger, rewards, |rewards|);
    assert rewards[..|rewards|] == rewards;
  }

  /** Non-negative rewards and weights give non-negative awards, as the settlement rail relies on. */
  lemma AwardsNonNegative(w: World, r: Reward, p: Protocol)
    requires r.amount >= 0 && (forall k :: k in w.weights ==> w.weights[k] >= 0.0)
    ensures AwardFor(w, r, p).amount >= 0
  {
    var weight := if (p.id, p.admin) in w.weights then w.weights[(p.id, p.admin)] else 1.0;
    assert r.amount as real * weight >= 0.0;
  }

  // ---------------------------------------------------------------- qualification only grows

  /** Events are only added, so a protocol once qualified stays qualified. */
  lemma QualifiesForever(w: World, later: World, slug: string, p: Protocol)
    requires w.gapHours == later.gapHours && w.events <= later.events
    requires Qualifies(w, slug, p)
    ensures Qualifies(later, slug, p)
  {
    assert forall i :: 0 <= i < |w.events| ==> later.events[i] == w.events[i];
    forall x | x in OutsideWallets(w, p) ensures x in OutsideWallets(later, p) {
      var i :| 0 <= i < |w.events|
        && w.events[i].protocol == p.id && w.events[i].wallet != p.admin && w.events[i].wallet == x;
      assert later.events[i].wallet == x;
    }
    SubsetSize(OutsideWallets(w, p), OutsideWallets(later, p));
    forall x | x in RepeatWallets(w, p) ensures x in RepeatWallets(later, p) {
      RepeatForever(w, later, p, x);
    }
    SubsetSize(RepeatWallets(w, p), RepeatWallets(later, p));
  }

  lemma RepeatForever(w: World, later: World, p: Protocol, wallet: string)
    requires w.gapHours == later.gapHours && w.events <= later.events && IsRepeat(w, p, wallet)
    ensures IsRepeat(later, p, wallet)
  {
    var i, j :| 0 <= i < |w.events| && 0 <= j < |w.events|
      && w.events[i].protocol == p.id && w.events[i].wallet == wallet
      && w.events[j].protocol == p.id && w.events[j].wallet == wallet
      && w.events[j].at - w.events[i].at >= w.gapHours * 3600;
    assert later.events[i] == w.events[i] && later.events[j] == w.events[j];
  }

  /** The milestones form ladders: each later one implies the ones it builds on. */
  lemma MilestoneLadder(w: World, p: Protocol)
    ensures Qualifies(w, "twenty_five_unique_wallets", p) ==> Qualifies(w, "first_five_unique_wallets", p)
    ensures Qualifies(w, "ten_repeat_users", p) ==> Qualifies(w, "first_repeat_user", p)
    ensures Qualifies(w, "ten_repeat_users", p) ==> Qualifies(w, "first_five_unique_wallets", p)
  {
    SubsetSize(RepeatWallets(w, p), OutsideWallets(w, p));
  }

  /** ... and every one that can pay needs a first event. */
  lemma EveryMilestoneNeedsAnEvent(w: World, slug: string, p: Protocol)
    requires Qualifies(w, slug, p)
    ensures Qualifies(w, "first_blink", p)
  {
    if OutsideWallets(w, p) != {} {
      var wallet :| wallet in OutsideWallets(w, p);
      var i :| 0 <= i < |w.events| && w.events[i].protocol == p.id && w.events[i].wallet == wallet;
    } else {
      assert RepeatWallets(w, p) == {};
    }
  }

  /** A protocol that qualified at any time, flagged or not, has been paid after the first tick that
      sees it active and unflagged. */
  lemma CatchUp(w: World, later: World, ledger: seq<Award>, rewards: seq<Reward>, r: Reward, p: Protocol)
    requires w.gapHours == later.gapHours && w.events <= later.events && Qualifies(w, r.slug, p)
    requires r in rewards
    requires p in later.protocols && p.active && p.id !in later.flagged
    ensures Earned(Tick(later, ledger, rewards), p.id, r.milestone)
  {
    QualifiesForever(w, later, r.slug, p);
    EarnedAfterTick(later, ledger, rewards, r, p);
  }

  /** A repeat wallet is documented as one with two events or more. That holds exactly when the gap
      is positive: with gap zero every outside wallet counts. */
  lemma RepeatNeedsTwoEventsIff(gapHours: nat)
    ensures gapHours > 0 <==>
      (forall w: World, p: Protocol, wallet: string {:trigger IsRepeat(w, p, wallet)} ::
         w.gapHours == gapHours && IsRepeat(w, p, wallet) ==>
           exists i, j :: 0 <= i < |w.events| && 0 <= j < |w.events| && i != j
             && w.events[i].protocol == p.id && w.events[i].wallet == wallet
             && w.events[j].protocol == p.id && w.events[j].wallet == wallet)
  {
    if gapHours == 0 {
      var p := Protocol("p", "admin", true);
      var w := World([p], {}, map[], [PointEvent("p", "user", true, 0)], 0);
      assert w.events[0].at - w.events[0].at >= 0;
      assert IsRepeat(w, p, "user");
    }
  }

  // ---------------------------------------------------------------- the cron's loop

  class Processor {
    var ledger: seq<Award>

    constructor (ledger: seq<Award>)
      ensures this.ledger == ledger
    {
      this.ledger := ledger;
    }

    /** The INSERT ... SELECT: the existence test sees the ledger as it was when it started. */
    method ProcessSlug(w: World, r: Reward) returns (inserted: nat)
      modifies this
      ensures ledger == Insert(w, old(ledger), r)
      ensures inserted == |ledger| - |old(ledger)|
    {
      inserted := 0;
      ghost var before := ledger;
      var seen := ledger;
      for i := 0 to |w.protocols|
        invariant ledger == before + NewAwards(w, before, r, w.protocols[..i])
        invariant inserted == |ledger| - |before|
      {
        var p := w.protocols[i];
        assert w.protocols[..i + 1][..i] == w.protocols[..i];
        if Eligible(w, seen, r, p) {
          ledger := ledger + [AwardFor(w, r, p)];
          inserted := inserted + 1;
        }
      }
      assert w.protocols[..|w.protocols|] == w.protocols;
    }

    /** One tick: a slug whose statement fails is skipped, the others go ahead. */
    method TickOnce(w: World, rewards: seq<Reward>, ok: seq<bool>) returns (total: nat)
      requires |ok| == |rewards|
      modifies this
      ensures ledger == Tick(w, old(ledger), Succeeding(rewards, ok))
      ensures total == |ledger| - |old(ledger)|
    {
      total := 0;
      for i := 0 to |rewards|
        invariant ledger == Tick(w, old(ledger), Succeeding(rewards[..i], ok[..i]))
        invariant total == |ledger| - |old(ledger)|
      {
        assert rewards[..i + 1][..i] == rewards[..i] && ok[..i + 1][..i] == ok[..i];
        SucceedingSnoc(w, old(ledger), rewards[..i + 1], ok[..i + 1]);
        if ok[i] {
          var n := ProcessSlug(w, rewards[i]);
          total := total + n;
        }
      }
      assert rewards[..|rewards|] == rewards && ok[..|ok|] == ok;
    }
  }

  function Succeeding(rewards: seq<Reward>, ok: seq<bool>): seq<Reward>
    requires |ok| == |rewards|
  {
    if rewards == [] then []
    else
      var n := |rewards| - 1;
      Succeeding(rewards[..n], ok[..n]) + if ok[n] then [rewards[n]] else []
  }

  lemma {:induction false} SucceedingMember(rewards: seq<Reward>, ok: seq<bool>, i: nat)
    requires i < |rewards| == |ok| && ok[i]
    ensures rewards[i] in Succeeding(rewards, ok)
  {
    var n := |rewards| - 1;
    if i < n {
      SucceedingMember(rewards[..n], ok[..n], i);
    }
  }

  lemma {:induction false} SucceedingOnly(rewards: seq<Reward>, ok: seq<bool>, r: Reward)
    requires |rewards| == |ok| && r in Succeeding(rewards, ok)
    ensures exists i :: 0 <= i < |rewards| && ok[i] && rewards[i] == r
  {
    var n := |rewards| - 1;
    if !(ok[n] && rewards[n] == r) {
      SucceedingOnly(rewards[..n], ok[..n], r);
      var i :| 0 <= i < n && ok[..n][i] && rewards[..n][i] == r;
      assert ok[i] && rewards[i] == r;
    }
  }

  /** A failing slug holds up no other: whoever qualifies under a succeeding one has its milestone. */
  lemma FailuresAreIsolated(w: World, ledger: seq<Award>, rewards: seq<Reward>, ok: seq<bool>, i: nat, p: Protocol)
    requires i < |rewards| == |ok| && ok[i]
    requires p in w.protocols && p.active && p.id !in w.flagged && Qualifies(w, rewards[i].slug, p)
    ensures Earned(Tick(w, ledger, Succeeding(rewards, ok)), p.id, rewards[i].milestone)
  {
    SucceedingMember(rewards, ok, i);
    EarnedAfterTick(w, ledger, Succeeding(rewards, ok), rewards[i], p);
  }

  lemma SucceedingSnoc(w: World, ledger: seq<Award>, rewards: seq<Reward>, ok: seq<bool>)
    requires |ok| == |rewards| > 0
    ensures var n := |rewards| - 1;
      var before := Tick(w, ledger, Succeeding(rewards[..n], ok[..n]));
      Tick(w, ledger, Succeeding(rewards, ok)) == if ok[n] then Insert(w, before, rewards[n]) else before
  {
    var n := |rewards| - 1;
    var init, all := Succeeding(rewards[..n], ok[..n]), Succeeding(rewards, ok);
    if ok[n] {
      assert all[..|all| - 1] == init && all[|all| - 1] == rewards[n];
    } else {
      assert all == init;
    }
  }
}
