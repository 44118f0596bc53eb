/** The stats worker pool as steps of its goroutines: one dispatcher, some workers, an unbuffered job channel,
    a results channel with room for every id, and a cycle context that may be cancelled at any moment. */
module StatsPool {
  datatype Outcome = Stats(value: int) | Failure

  datatype Answer = Answer(id: string, outcome: Outcome)

  /** Where a worker's loop is: receiving a job, calling Docker, sending the answer, or gone. */
  datatype Worker = Idle | Calling(id: string) | Sending(answer: Answer) | Exited

  /** `skipped` is history: the ids the dispatcher gave up because the context was done. */
  datatype Pool = Pool(ids: seq<string>, next: nat, cancelled: bool, jobsClosed: bool, workers: seq<Worker>,
                       results: seq<Answer>, resultsClosed: bool, skipped: seq<string>)

  datatype Step =
    | Hand(worker: nat)
    | Skip
    | Cancel
    | Reply(worker: nat, outcome: Outcome)
    | Send(worker: nat)
    | CloseJobs
    | Leave(worker: nat)
    | CloseResults

  function Start(ids: seq<string>, configured: nat): Pool {
    var workers := if configured < |ids| then configured else |ids|;
    Pool(ids, 0, false, false, seq(workers, _ => Idle), [], false, [])
  }

  /** make(chan statsResult, len(ids)). */
  predicate HasRoom(p: Pool) { |p.results| < |p.ids| }

  predicate Enabled(p: Pool, step: Step) {
    match step
    case Hand(w) => p.next < |p.ids| && w < |p.workers| && p.workers[w] == Idle
    case Skip => p.next < |p.ids| && p.cancelled
    case Cancel => !p.cancelled
    case Reply(w, _) => w < |p.workers| && p.workers[w].Calling?
    case Send(w) => w < |p.workers| && p.workers[w].Sending? && HasRoom(p)
    case CloseJobs => p.next >= |p.ids| && !p.jobsClosed
    case Leave(w) => p.jobsClosed && w < |p.workers| && p.workers[w] == Idle
    case CloseResults => p.jobsClosed && !p.resultsClosed && forall w | 0 <= w < |p.workers| :: p.workers[w] == Exited
  }

  function After(p: Pool, step: Step): Pool
    requires Enabled(p, step)
  {
    match step
    case Hand(w) => p.(workers := p.workers[w := Calling(p.ids[p.next])], next := p.next + 1)
    case Skip => p.(next := p.next + 1, skipped := p.skipped + [p.ids[p.next]])
    case Cancel => p.(cancelled := true)
    case Reply(w, outcome) => p.(workers := p.workers[w := Sending(Answer(p.workers[w].id, outcome))])
    case Send(w) => p.(workers := p.workers[w := Idle], results := p.results + [p.workers[w].answer])
    case CloseJobs => p.(jobsClosed := true)
    case Leave(w) => p.(workers := p.workers[w := Exited])
    case CloseResults => p.(resultsClosed := true)
  }

  ghost predicate IsRun(p: Pool, steps: seq<Step>)
    decreases |steps|
  {
    steps == [] || (Enabled(p, steps[0]) && IsRun(After(p, steps[0]), steps[1..]))
  }

  ghost function Final(p: Pool, steps: seq<Step>): Pool
    requires IsRun(p, steps)
    decreases |steps|
  {
    if steps == [] then p else Final(After(p, steps[0]), steps[1..])
  }

  // ---- Conservation: every id is with exactly one owner -------------------------------------------------

  /** What is counted: every id, or the occurrences of one. */
  type Weight = string -> nat

  function Every(): Weight { (id: string) => 1 }

  function Only(id: string): Weight { (other: string) => if other == id then 1 else 0 }

  function Weigh(s: seq<string>, f: Weight): nat {
    if s == [] then 0 else Weigh(s[..|s| - 1], f) + f(s[|s| - 1])
  }

  function HeldBy(w: Worker, f: Weight): nat {
    match w
    case Calling(id) => f(id)
    case Sending(answer) => f(answer.id)
    case _ => 0
  }

  function Held(ws: seq<Worker>, f: Weight): nat {
    if ws == [] then 0 else HeldBy(ws[0], f) + Held(ws[1..], f)
  }

  function Answered(results: seq<Answer>): seq<string> {
    seq(|results|, i requires 0 <= i < |results| => results[i].id)
  }

  lemma WeighSnoc(s: seq<string>, id: string, f: Weight)
    ensures Weigh(s + [id], f) == Weigh(s, f) + f(id)
  {
    assert (s + [id])[..|s|] == s;
  }

  lemma {:induction false} WeighAll(s: seq<string>)
    ensures Weigh(s, Every()) == |s|
  {
    if s != [] { WeighAll(s[..|s| - 1]); }
  }

  lemma {:induction false} WeighOne(s: seq<string>, id: string)
    ensures Weigh(s, Only(id)) == multiset(s)[id]
  {
    if s != [] {
      WeighOne(s[..|s| - 1], id);
      assert s == s[..|s| - 1] + [s[|s| - 1]];
    }
  }

  lemma {:induction false} HeldUpdate(ws: seq<Worker>, w: nat, x: Worker, f: Weight)
    requires w < |ws|
    ensures Held(ws[w := x], f) + HeldBy(ws[w], f) == Held(ws, f) + HeldBy(x, f)
  {
    var next := ws[w := x];
    if w == 0 {
      assert next[1..] == ws[1..];
    } else {
      HeldUpdate(ws[1..], w - 1, x, f);
      assert next[1..] == ws[1..][w - 1 := x];
    }
  }

  lemma {:induction false} HeldAtLeast(ws: seq<Worker>, w: nat, f: Weight)
    requires w < |ws|
    ensures HeldBy(ws[w], f) <= Held(ws, f)
  {
    if w > 0 { HeldAtLeast(ws[1..], w - 1, f); }
  }

  lemma {:induction false} NothingHeld(ws: seq<Worker>, f: Weight)
    requires forall w | 0 <= w < |ws| :: ws[w] == Idle || ws[w] == Exited
    ensures Held(ws, f) == 0
  {
    if ws != [] { NothingHeld(ws[1..], f); }
  }

  /** What was dispatched is answered, with a worker, or skipped. */
  ghost predicate Accounted(p: Pool, f: Weight) {
    && p.next <= |p.ids|
    && Weigh(Answered(p.results), f) + Held(p.workers, f) + Weigh(p.skipped, f) == Weigh(p.ids[..p.next], f)
  }

  lemma StepKeepsAccounts(p: Pool, step: Step, f: Weight)
    requires Accounted(p, f) && Enabled(p, step)
    ensures Accounted(After(p, step), f)
  {
    hide Weigh, Held;
    var q := After(p, step);
    if step.Hand? || step.Skip? {
      assert p.ids[..p.next + 1] == p.ids[..p.next] + [p.ids[p.next]];
      WeighSnoc(p.ids[..p.next], p.ids[p.next], f);
    }
    match step
    case Hand(w) => HeldUpdate(p.workers, w, q.workers[w], f);
    case Skip => WeighSnoc(p.skipped, p.ids[p.next], f);
    case Reply(w, outcome) => HeldUpdate(p.workers, w, q.workers[w], f);
    case Send(w) =>
      HeldUpdate(p.workers, w, Idle, f);
      assert Answered(q.results) == Answered(p.results) + [p.workers[w].answer.id];
      WeighSnoc(Answered(p.results), p.workers[w].answer.id, f);
    case Leave(w) => HeldUpdate(p.workers, w, Exited, f);
    case _ =>
  }

  /** The stages follow one another: workers leave after the jobs are closed, the results close after that. */
  ghost predicate Staged(p: Pool) {
    && |p.workers| > 0
    && (p.skipped != [] ==> p.cancelled)
    && (p.jobsClosed ==> p.next == |p.ids|)
    && (!p.jobsClosed ==> forall w | 0 <= w < |p.workers| :: p.workers[w] != Exited)
    && (p.resultsClosed ==> p.jobsClosed && forall w | 0 <= w < |p.workers| :: p.workers[w] == Exited)
  }

  ghost predicate Inv(p: Pool, f: Weight) { Accounted(p, f) && Staged(p) }

  lemma StartInv(ids: seq<string>, configured: nat, f: Weight)
    requires ids != [] && configured > 0
    ensures Inv(Start(ids, configured), f)
  {
    NothingHeld(Start(ids, configured).workers, f);
    assert ids[..0] == [];
  }

  lemma StepKeepsStages(p: Pool, step: Step)
    requires Staged(p) && p.next <= |p.ids| && Enabled(p, step)
    ensures Staged(After(p, step))
  {
  }

  lemma {:induction false} RunKeepsInv(p: Pool, steps: seq<Step>, f: Weight)
    requires Inv(p, f) && IsRun(p, steps)
    ensures Inv(Final(p, steps), f) && Final(p, steps).ids == p.ids
    decreases |steps|
  {
    if steps != [] {
      StepKeepsAccounts(p, steps[0], f);
      StepKeepsStages(p, steps[0]);
      RunKeepsInv(After(p, steps[0]), steps[1..], f);
    }
  }

  lemma CycleKeepsInv(ids: seq<string>, configured: nat, steps: seq<Step>, f: Weight)
    requires ids != [] && configured > 0 && IsRun(Start(ids, configured), steps)
    ensures Inv(Final(Start(ids, configured), steps), f) && Final(Start(ids, configured), steps).ids == ids
  {
    StartInv(ids, configured, f);
    RunKeepsInv(Start(ids, configured), steps, f);
  }

  // ---- Progress ------------------------------------------------------------------------------------------

  /** A worker with an answer can always put it in the results buffer at once. */
  lemma SendersNeverBlock(p: Pool, w: nat)
    requires Inv(p, Every()) && w < |p.workers| && p.workers[w].Sending?
    ensures Enabled(p, Send(w)) && !p.resultsClosed
  {
    HeldAtLeast(p.workers, w, Every());
    WeighAll(p.ids[..p.next]);
    WeighAll(Answered(p.results));
  }

  /** Until the results are closed some goroutine can move without waiting for a cancellation. */
  lemma NoDeadlock(p: Pool) returns (step: Step)
    requires Inv(p, Every()) && !p.resultsClosed
    ensures Enabled(p, step) && step != Cancel
  {
    if w :| 0 <= w < |p.workers| && p.workers[w].Calling? { return Reply(w, Failure); }
    if w :| 0 <= w < |p.workers| && p.workers[w].Sending? {
      SendersNeverBlock(p, w);
      return Send(w);
    }
    if p.next < |p.ids| {
      assert p.workers[0] == Idle;
      return Hand(0);
    }
    if !p.jobsClosed { return CloseJobs; }
    if w :| 0 <= w < |p.workers| && p.workers[w] == Idle { return Leave(w); }
    return CloseResults;
  }

  function Load(w: Worker): nat {
    match w
    case Calling(_) => 3
    case Sending(_) => 2
    case Idle => 1
    case Exited => 0
  }

  function Loads(ws: seq<Worker>): nat {
    if ws == [] then 0 else Load(ws[0]) + Loads(ws[1..])
  }

  lemma {:induction false} LoadsUpdate(ws: seq<Worker>, w: nat, x: Worker)
    requires w < |ws|
    ensures Loads(ws[w := x]) + Load(ws[w]) == Loads(ws) + Load(x)
  {
    var next := ws[w := x];
    if w == 0 {
      assert next[1..] == ws[1..];
    } else {
      LoadsUpdate(ws[1..], w - 1, x);
      assert next[1..] == ws[1..][w - 1 := x];
    }
  }

  function One(pending: bool): nat { if pending then 1 else 0 }

  function Work(p: Pool): int {
    3 * (|p.ids| - p.next) + Loads(p.workers) + One(!p.cancelled) + One(!p.jobsClosed) + One(!p.resultsClosed)
  }

  lemma StepsAreWork(p: Pool, step: Step)
    requires Enabled(p, step)
    ensures Work(After(p, step)) < Work(p)
  {
    match step
    case Hand(w) => LoadsUpdate(p.workers, w, Calling(p.ids[p.next]));
    case Reply(w, outcome) => LoadsUpdate(p.workers, w, After(p, step).workers[w]);
    case Send(w) => LoadsUpdate(p.workers, w, Idle);
    case Leave(w) => LoadsUpdate(p.workers, w, Exited);
    case _ =>
  }

  lemma {:induction false} RunsAreShort(p: Pool, steps: seq<Step>)
    requires IsRun(p, steps)
    ensures |steps| <= Work(p) - Work(Final(p, steps))
    decreases |steps|
  {
    if steps != [] {
      StepsAreWork(p, steps[0]);
      RunsAreShort(After(p, steps[0]), steps[1..]);
    }
  }

  lemma {:induction false} IdleLoads(ws: seq<Worker>)
    requires forall w | 0 <= w < |ws| :: ws[w] == Idle
    ensures Loads(ws) == |ws|
  {
    if ws != [] { IdleLoads(ws[1..]); }
  }

  // ---- The cycle as a whole ------------------------------------------------------------------------------

  /** Every interleaving is bounded, and one that can go no further has closed its results. */
  lemma CycleTerminates(ids: seq<string>, configured: nat, steps: seq<Step>)
    requires ids != [] && configured > 0 && IsRun(Start(ids, configured), steps)
    ensures |steps| <= 3 * |ids| + |Start(ids, configured).workers| + 3
    ensures Final(Start(ids, configured), steps).resultsClosed ||
            exists step :: Enabled(Final(Start(ids, configured), steps), step) && step != Cancel
  {
    var p := Final(Start(ids, configured), steps);
    CycleKeepsInv(ids, configured, steps, Every());
    RunsAreShort(Start(ids, configured), steps);
    IdleLoads(Start(ids, configured).workers);
    if !p.resultsClosed { var step := NoDeadlock(p); }
  }

  /** Once the results are closed they and the skipped ids are the ids, each exactly once; without a
      cancellation nothing is skipped. */
  lemma EachIdAnsweredOnce(ids: seq<string>, configured: nat, steps: seq<Step>)
    requires ids != [] && configured > 0 && IsRun(Start(ids, configured), steps)
    requires Final(Start(ids, configured), steps).resultsClosed
    ensures var p := Final(Start(ids, configured), steps);
            && multiset(Answered(p.results)) + multiset(p.skipped) == multiset(ids)
            && (!p.cancelled ==> p.skipped == [])
  {
    var p := Final(Start(ids, configured), steps);
    forall id ensures multiset(Answered(p.results))[id] + multiset(p.skipped)[id] == multiset(ids)[id] {
      CycleKeepsInv(ids, configured, steps, Only(id));
      NothingHeld(p.workers, Only(id));
      assert p.ids[..p.next] == ids;
      WeighOne(Answered(p.results), id);
      WeighOne(p.skipped, id);
      WeighOne(ids, id);
    }
    CycleKeepsInv(ids, configured, steps, Every());
  }

  /** At any moment no id has more answers than times it was listed: with distinct ids, at most one. */
  lemma NeverAnsweredTwice(ids: seq<string>, configured: nat, steps: seq<Step>, id: string)
    requires ids != [] && configured > 0 && IsRun(Start(ids, configured), steps)
    ensures multiset(Answered(Final(Start(ids, configured), steps).results))[id] <= multiset(ids)[id]
  {
    var p := Final(Start(ids, configured), steps);
    CycleKeepsInv(ids, configured, steps, Only(id));
    WeighOne(Answered(p.results), id);
    WeighOne(ids[..p.next], id);
    assert ids == ids[..p.next] + ids[p.next..];
  }
}
