/** What the proof endpoint answers, from the request's text to the reply. */
module RewardzRequests {
  import opened Common
  import opened Bytes
  import opened Merkle
  import opened MerkleSoundness
  import opened Earnings
  import opened RewardzRail
  import opened RewardzTheorems

  predicate NoAnswer(steps: seq<Step>) {
    forall i :: 0 <= i < |steps| ==> !steps[i].Answer?
  }

  /** A request that cannot be taken further is answered at once: 400 for a text that is no key, 503
      when the account could not be read or is missing. Nothing else changes. */
  lemma RefusedAtOnce(p: Params, s: State, target: string, read: ChainRead)
    requires p.parse(target).None? || read.ReadError? || read.k == 0
    ensures var status := if p.parse(target).None? then BadRequest else Unavailable;
      Next(p, s, Ask(target, read)) == s.(replies := s.replies + [Refused(status)])
  {
  }

  /** Any other request is opened, for the parsed key and the account as the read saw it. */
  lemma Opened(p: Params, s: State, target: string, key: Pubkey, k: nat)
    requires p.parse(target) == Some(key) && 1 <= k <= |s.landed|
    ensures var t := Next(p, s, Ask(target, ReadAt(k)));
      t == s.(requests := t.requests) && |t.requests| == |s.requests| + 1
    ensures var q := Next(p, s, Ask(target, ReadAt(k))).requests[|s.requests|];
      q.target == key && q.root == s.landed[k - 1].plan.root && q.epoch == s.landed[k - 1].plan.epoch
  {
  }

  /** Requests wait unchanged until they are answered. */
  lemma {:induction false} RequestWaits(p: Params, s: State, mid: seq<Step>, i: nat)
    requires NoAnswer(mid) && i < |s.requests|
    ensures var t := RunFrom(p, s, mid); i < |t.requests| && t.requests[i] == s.requests[i]
  {
    if mid == [] {
    } else {
      RequestWaits(p, s, mid[..|mid| - 1], i);
      StepKeepsRequest(p, RunFrom(p, s, mid[..|mid| - 1]), mid[|mid| - 1], i);
    }
  }

  lemma StepKeepsRequest(p: Params, s: State, step: Step, i: nat)
    requires !step.Answer? && i < |s.requests|
    ensures var t := Next(p, s, step); i < |t.requests| && t.requests[i] == s.requests[i]
  {
  }

  /** The reply `r` to a request for `key` that read `root` at `epoch`, over the ledger `rows`: 500 when
      the ledger cannot be read; 503 when what it holds has another root; otherwise the key's leaf, or
      404 when it has none. */
  ghost predicate RightReply(p: Params, key: Pubkey, root: Digest, epoch: nat, rows: seq<EarningRow>, r: Reply) {
    match ReadEntries(p, rows)
    case Err => r == Refused(Internal)
    case Ok(es) =>
      if RootOf(p.H, es) != root then r == Refused(Unavailable)
      else if forall e :: e in es ==> e.0 != key then r == Refused(NotFound)
      else
        && r.Served? && r.target == key && r.epoch == epoch && r.root == root
        && (key, r.amount) in es
        && Fold(p.H, HashLeaf(p.H, (key, r.amount)), r.proof) == root
  }

  lemma ReplyIsRight(p: Params, q: Pending, rows: seq<EarningRow>)
    ensures RightReply(p, q.target, q.root, q.epoch, rows, ReplyTo(p, q, rows))
  {
    ReplyAnswers(p, q, rows);
    if ReadEntries(p, rows).Ok? {
      LookupFinds(ReadEntries(p, rows).value, q.target);
    }
  }

  lemma LookupFinds(es: seq<Entry>, key: Pubkey)
    ensures LastIndex(es, key).None? <==> forall e :: e in es ==> e.0 != key
    ensures LastIndex(es, key).Some? ==> (key, es[LastIndex(es, key).value].1) in es
  {
    var at := LastIndex(es, key);
    if at.Some? {
      assert es[at.value] == (key, es[at.value].1);
    }
  }

  /** Where a request for `target` that read version `k` stands after `mid`. */
  function Asked(p: Params, steps: seq<Step>, target: string, k: nat, mid: seq<Step>): State {
    RunFrom(p, Next(p, Run(p, steps), Ask(target, ReadAt(k))), mid)
  }

  lemma AnswerRemoves(p: Params, t: State, i: nat) returns (r: Reply)
    requires i < |t.requests|
    ensures Next(p, t, Answer(i, true)) == t.(
      requests := t.requests[..i] + t.requests[i + 1..],
      replies := t.replies + [r])
    ensures var q := t.requests[i]; RightReply(p, q.target, q.root, q.epoch, t.rows, r)
  {
    r := ReplyTo(p, t.requests[i], t.rows);
    ReplyIsRight(p, t.requests[i], t.rows);
  }

  lemma AskedWaits(p: Params, s: State, target: string, key: Pubkey, k: nat, mid: seq<Step>)
    requires p.parse(target) == Some(key) && 1 <= k <= |s.landed| && NoAnswer(mid)
    requires s.landed[k - 1].plan.epoch == k
    ensures var t := RunFrom(p, Next(p, s, Ask(target, ReadAt(k))), mid);
      |s.requests| < |t.requests| && t.requests[|s.requests|] == Pending(key, s.landed[k - 1].plan.root, k)
  {
    Opened(p, s, target, key, k);
    RequestWaits(p, Next(p, s, Ask(target, ReadAt(k))), mid, |s.requests|);
  }

  /** Over every run, whatever happens between its two reads: a request is answered for the key its
      text parses to and the publish its chain read saw, over the ledger its database read saw. */
  lemma RequestIsAnswered(p: Params, steps: seq<Step>, target: string, key: Pubkey, k: nat, mid: seq<Step>)
    returns (r: Reply)
    requires p.parse(target) == Some(key) && 1 <= k <= |Run(p, steps).landed| && NoAnswer(mid)
    ensures var i := |Run(p, steps).requests|; var t := Asked(p, steps, target, k, mid);
      && i < |t.requests|
      && Next(p, t, Answer(i, true)) == t.(
           requests := t.requests[..i] + t.requests[i + 1..],
           replies := t.replies + [r])
      && RightReply(p, key, Run(p, steps).landed[k - 1].plan.root, k, t.rows, r)
  {
    EpochsHaveNoHoles(p, steps);
    AskedWaits(p, Run(p, steps), target, key, k, mid);
    r := AnswerRemoves(p, Asked(p, steps, target, k, mid), |Run(p, steps).requests|);
  }

  /** A failed database read is a 500. */
  lemma FailedReadIsInternal(p: Params, s: State, i: nat)
    requires i < |s.requests|
    ensures Next(p, s, Answer(i, false)).replies == s.replies + [Refused(Internal)]
  {
  }

  /** In particular, while the ledger holds the awards that publish read, in whatever order, an
      authority of its tree is served its leaf at its epoch, and any other gets a 404. */
  lemma UnchangedLedgerAnswers(p: Params, steps: seq<Step>, target: string, key: Pubkey, k: nat, mid: seq<Step>)
    returns (r: Reply)
    requires ValidParams(p)
    requires p.parse(target) == Some(key) && 1 <= k <= |Run(p, steps).landed| && NoAnswer(mid)
    requires var s := Run(p, steps); var n := s.landed[k - 1].plan.rowsRead;
      n <= |s.rows| && multiset(Facts(Asked(p, steps, target, k, mid).rows)) == multiset(Facts(s.rows[..n]))
    ensures var i := |Run(p, steps).requests|; var t := Asked(p, steps, target, k, mid);
      Next(p, t, Answer(i, true)).replies == t.replies + [r]
    ensures var plan := Run(p, steps).landed[k - 1].plan;
      && (r == Refused(NotFound) <==> forall e :: e in plan.entries ==> e.0 != key)
      && (r != Refused(NotFound) ==>
            && r.Served? && r.target == key && r.epoch == k && r.root == plan.root
            && (key, r.amount) in plan.entries && Fold(p.H, HashLeaf(p.H, (key, r.amount)), r.proof) == plan.root)
  {
    r := RequestIsAnswered(p, steps, target, key, k, mid);
    PublishedOver(p, steps, k);
    var plan := Run(p, steps).landed[k - 1].plan;
    ReproducibleEntries(p, Asked(p, steps, target, k, mid).rows, Run(p, steps).rows[..plan.rowsRead]);
  }

  lemma PublishedOver(p: Params, steps: seq<Step>, k: nat)
    requires 1 <= k <= |Run(p, steps).landed|
    ensures var s := Run(p, steps); var plan := s.landed[k - 1].plan;
      && plan.rowsRead <= |s.rows| && ReadEntries(p, s.rows[..plan.rowsRead]) == Ok(plan.entries)
      && plan.root == RootOf(p.H, plan.entries)
  {
    RunKeepsInv(p, steps);
    assert TxOk(p, Run(p, steps), Run(p, steps).landed[k - 1]);
  }
}
