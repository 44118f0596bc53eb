/** The answers of a stats cycle are Docker's replies: none changed, none lost, each under the id it was asked for. */
module StatsAnswers {
  import opened Common
  import opened StatsPool

  // Told from the steps alone.

  /** How many ids the dispatcher has handed out or skipped. */
  function Dispatched(steps: seq<Step>): nat {
    if steps == [] then 0 else
      Dispatched(steps[..|steps| - 1]) + if steps[|steps| - 1].Hand? || steps[|steps| - 1].Skip? then 1 else 0
  }

  /** The id of the latest job handed to a worker. */
  function LastJob(ids: seq<string>, steps: seq<Step>, w: nat): string {
    if steps == [] then "" else
      var front, last := steps[..|steps| - 1], steps[|steps| - 1];
      if last == Hand(w) && Dispatched(front) < |ids| then ids[Dispatched(front)] else LastJob(ids, front, w)
  }

  /** What Docker replied, and for which id it had been asked. */
  function Replies(ids: seq<string>, steps: seq<Step>): seq<Answer> {
    if steps == [] then [] else
      var front := steps[..|steps| - 1];
      Replies(ids, front) +
      match steps[|steps| - 1]
      case Reply(w, outcome) => [Answer(LastJob(ids, front, w), outcome)]
      case _ => []
  }

  // Runs, from their ends.

  lemma {:induction false} RunSplits(p: Pool, steps: seq<Step>, last: Step)
    requires IsRun(p, steps + [last])
    ensures IsRun(p, steps) && Enabled(Final(p, steps), last)
    ensures Final(p, steps + [last]) == After(Final(p, steps), last)
    decreases |steps|
  {
    if steps == [] {
      assert (steps + [last])[1..] == [];
    } else {
      assert (steps + [last])[1..] == steps[1..] + [last];
      RunSplits(After(p, steps[0]), steps[1..], last);
    }
  }

  function PendingOf(w: Worker): multiset<Answer> { if w.Sending? then multiset{w.answer} else multiset{} }

  /** The answers workers still hold. */
  function Pending(ws: seq<Worker>): multiset<Answer> {
    if ws == [] then multiset{} else PendingOf(ws[0]) + Pending(ws[1..])
  }

  lemma Shift(a: multiset<Answer>, x: multiset<Answer>, y: multiset<Answer>, p: multiset<Answer>, q: multiset<Answer>)
    requires x + p == y + q
    ensures (a + x) + p == (a + y) + q
  {
    assert (a + x) + p == a + (x + p) && (a + y) + q == a + (y + q);
  }

  lemma {:induction false} PendingUpdate(ws: seq<Worker>, w: nat, x: Worker)
    requires w < |ws|
    ensures Pending(ws[w := x]) + PendingOf(ws[w]) == Pending(ws) + PendingOf(x)
    ensures PendingOf(ws[w]) == PendingOf(x) ==> Pending(ws[w := x]) == Pending(ws)
  {
    hide PendingOf;
    var next := ws[w := x];
    if w == 0 {
      assert next[1..] == ws[1..];
    } else {
      PendingUpdate(ws[1..], w - 1, x);
      assert next[1..] == ws[1..][w - 1 := x] && next[0] == ws[0];
      Shift(PendingOf(ws[0]), Pending(next[1..]), Pending(ws[1..]), PendingOf(ws[w]), PendingOf(x));
    }
  }

  lemma {:induction false} NothingPending(ws: seq<Worker>)
    requires forall w | 0 <= w < |ws| :: !ws[w].Sending?
    ensures Pending(ws) == multiset{}
  {
    if ws != [] { NothingPending(ws[1..]); }
  }

  /** Where the run has brought the pool, told from its steps. */
  ghost predicate Tallies(p: Pool, ids: seq<string>, steps: seq<Step>) {
    && p.ids == ids && p.next == Dispatched(steps)
    && (forall w: nat | w < |p.workers| && p.workers[w].Calling? :: p.workers[w].id == LastJob(ids, steps, w))
    && multiset(p.results) + Pending(p.workers) == multiset(Replies(ids, steps))
  }

  lemma OneMoreStep(ids: seq<string>, steps: seq<Step>, last: Step)
    ensures Dispatched(steps + [last]) == Dispatched(steps) + if last.Hand? || last.Skip? then 1 else 0
    ensures forall w: nat :: LastJob(ids, steps + [last], w) ==
              if last == Hand(w) && Dispatched(steps) < |ids| then ids[Dispatched(steps)] else LastJob(ids, steps, w)
    ensures Replies(ids, steps + [last]) ==
              if last.Reply? then Replies(ids, steps) + [Answer(LastJob(ids, steps, last.worker), last.outcome)]
              else Replies(ids, steps)
  {
    assert (steps + [last])[..|steps|] == steps;
    assert Replies(ids, steps) + [] == Replies(ids, steps);
  }

  lemma Carry(r: multiset<Answer>, a: multiset<Answer>, p: multiset<Answer>, q: multiset<Answer>)
    requires q + a == p
    ensures (r + a) + q == r + p
  {
    assert (r + a) + q == r + (q + a);
  }

  /** An answer moves from its worker to the results. */
  lemma SendMoves(p: Pool, w: nat)
    requires Enabled(p, Send(w))
    ensures var q := After(p, Send(w));
      multiset(q.results) + Pending(q.workers) == multiset(p.results) + Pending(p.workers)
  {
    hide Pending;
    var answer := p.workers[w].answer;
    PendingUpdate(p.workers, w, Idle);
    assert Pending(p.workers) + multiset{} == Pending(p.workers);
    Carry(multiset(p.results), multiset{answer}, Pending(p.workers), Pending(p.workers[w := Idle]));
    assert multiset(p.results + [answer]) == multiset(p.results) + multiset{answer};
  }

  /** A reply moves from Docker to its worker. */
  lemma ReplyMoves(p: Pool, step: Step)
    requires Enabled(p, step)
    ensures var q := After(p, step); var now := multiset(p.results) + Pending(p.workers);
      multiset(q.results) + Pending(q.workers) ==
        if step.Reply? then now + multiset{Answer(p.workers[step.worker].id, step.outcome)} else now
  {
    hide Pending;
    var q := After(p, step);
    match step {
      case Hand(w) => PendingUpdate(p.workers, w, q.workers[w]);
      case Leave(w) => PendingUpdate(p.workers, w, q.workers[w]);
      case Reply(w, outcome) =>
        PendingUpdate(p.workers, w, q.workers[w]);
        assert Pending(q.workers) + multiset{} == Pending(q.workers);
      case Send(w) => SendMoves(p, w);
      case _ =>
    }
  }

  lemma StepTallies(p: Pool, ids: seq<string>, steps: seq<Step>, step: Step)
    requires Tallies(p, ids, steps) && Enabled(p, step)
    ensures Tallies(After(p, step), ids, steps + [step])
  {
    hide Dispatched, LastJob, Replies, Pending;
    OneMoreStep(ids, steps, step);
    ReplyMoves(p, step);
    if step.Reply? {
      var a := Answer(LastJob(ids, steps, step.worker), step.outcome);
      assert multiset(Replies(ids, steps) + [a]) == multiset(Replies(ids, steps)) + multiset{a};
    }
  }

  lemma {:induction false} RunTallies(ids: seq<string>, configured: nat, steps: seq<Step>)
    requires IsRun(Start(ids, configured), steps)
    ensures Tallies(Final(Start(ids, configured), steps), ids, steps)
  {
    var p := Start(ids, configured);
    if steps == [] {
      NothingPending(p.workers);
    } else {
      var front, last := steps[..|steps| - 1], steps[|steps| - 1];
      SplitLast(steps);
      RunSplits(p, front, last);
      RunTallies(ids, configured, front);
      StepTallies(Final(p, front), ids, front, last);
    }
  }

  /** At every moment the results and the answers still held by workers are Docker's replies, each once and under the
      id its worker had been handed last. */
  lemma {:induction false} AnswersAreReplies(ids: seq<string>, configured: nat, steps: seq<Step>)
    requires IsRun(Start(ids, configured), steps)
    ensures var p := Final(Start(ids, configured), steps);
      multiset(p.results) + Pending(p.workers) == multiset(Replies(ids, steps))
  {
    RunTallies(ids, configured, steps);
  }

  /** And when the results are closed, the results alone are. */
  lemma {:induction false} ResultsAreReplies(ids: seq<string>, configured: nat, steps: seq<Step>)
    requires ids != [] && configured > 0 && IsRun(Start(ids, configured), steps)
    requires Final(Start(ids, configured), steps).resultsClosed
    ensures multiset(Final(Start(ids, configured), steps).results) == multiset(Replies(ids, steps))
  {
    RunTallies(ids, configured, steps);
    CycleKeepsInv(ids, configured, steps, Every());
    NothingPending(Final(Start(ids, configured), steps).workers);
  }

  /** At most `configured` Docker calls are under way at any moment, and no more than there are ids. */
  lemma {:induction false} AtMostConfiguredCalls(ids: seq<string>, configured: nat, steps: seq<Step>)
    requires IsRun(Start(ids, configured), steps)
    ensures var calling := set w: nat | w < |Final(Start(ids, configured), steps).workers|
                                        && Final(Start(ids, configured), steps).workers[w].Calling?;
      |calling| <= configured && |calling| <= |ids|
  {
    var p := Final(Start(ids, configured), steps);
    var calling := set w: nat | w < |p.workers| && p.workers[w].Calling?;
    WorkersStay(Start(ids, configured), steps);
    FewBelow(calling, |p.workers|);
  }

  lemma {:induction false} WorkersStay(p: Pool, steps: seq<Step>)
    requires IsRun(p, steps)
    ensures |Final(p, steps).workers| == |p.workers|
    decreases |steps|
  {
    if steps != [] { WorkersStay(After(p, steps[0]), steps[1..]); }
  }

  lemma {:induction false} FewBelow(ws: set<nat>, n: nat)
    requires forall w | w in ws :: w < n
    ensures |ws| <= n
  {
    if n == 0 {
      assert forall w :: w !in ws;
      assert ws == {};
    } else if n - 1 in ws {
      FewBelow(ws - {n - 1}, n - 1);
    } else {
      FewBelow(ws, n - 1);
    }
  }
}
