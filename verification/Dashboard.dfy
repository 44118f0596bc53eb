/** The browser's reducer, as far as alerts go, and the replay of alert messages over a snapshot. */
module Dashboard {
  import opened Common
  import opened AlertModel

  /** Messages other than these two leave the alert list alone. */
  datatype LiveMessage = AlertMessage(a: AlertRow) | AckMessage(id: int, ackedAt: int) | OtherMessage

  datatype Overview = Overview(alerts: seq<AlertRow>)

  datatype State = State(overview: Option<Overview>, loading: bool, error: string, connected: bool)

  datatype Action =
    | Loaded(loaded: Overview)
    | LoadFailed(reason: string)
    | Connection(up: bool)
    | Live(message: LiveMessage)

  function Without(alerts: seq<AlertRow>, id: int): seq<AlertRow> {
    if alerts == [] then []
    else if alerts[0].id == id then Without(alerts[1..], id)
    else [alerts[0]] + Without(alerts[1..], id)
  }

  function Acked(alerts: seq<AlertRow>, id: int, at: int): seq<AlertRow> {
    seq(|alerts|, i requires 0 <= i < |alerts| =>
      if alerts[i].id == id then alerts[i].(ackedAt := at) else alerts[i])
  }

  function ApplyLive(state: State, msg: LiveMessage): State {
    if state.overview.None? then state else
      var alerts := state.overview.value.alerts;
      match msg
      case AlertMessage(a) =>
        var others := Without(alerts, a.id);
        state.(overview := Some(Overview(if a.state.Resolved? then others else [a] + others)))
      case AckMessage(id, at) => state.(overview := Some(Overview(Acked(alerts, id, at))))
      case OtherMessage => state
  }

  function Reduce(state: State, action: Action): State {
    match action
    case Loaded(overview) => state.(overview := Some(overview), loading := false, error := "")
    case LoadFailed(reason) => state.(loading := false, error := reason)
    case Connection(up) => state.(connected := up)
    case Live(msg) => ApplyLive(state, msg)
  }

  function ReduceAll(state: State, actions: seq<Action>): State {
    if actions == [] then state else Reduce(ReduceAll(state, actions[..|actions| - 1]), actions[|actions| - 1])
  }

  // Alert ids under a run of alert messages.

  function Ids(alerts: seq<AlertRow>): set<int> { set a | a in alerts :: a.id }

  function Replay(ids: set<int>, msgs: seq<AlertRow>): set<int> {
    if msgs == [] then ids else
      var before, last := Replay(ids, msgs[..|msgs| - 1]), msgs[|msgs| - 1];
      if last.state.Firing? then before + {last.id} else before - {last.id}
  }

  /** What the last message about an id says of it. */
  function Verdict(msgs: seq<AlertRow>, id: int): Option<AlertState> {
    if msgs == [] then None
    else if msgs[|msgs| - 1].id == id then Some(msgs[|msgs| - 1].state)
    else Verdict(msgs[..|msgs| - 1], id)
  }

  lemma {:induction false} ReplayFollowsVerdict(ids: set<int>, msgs: seq<AlertRow>, id: int)
    ensures id in Replay(ids, msgs) <==>
      match Verdict(msgs, id) case Some(st) => st.Firing? case None => id in ids
  {
    if msgs != [] { ReplayFollowsVerdict(ids, msgs[..|msgs| - 1], id); }
  }

  lemma {:induction false} VerdictOfSplit(msgs: seq<AlertRow>, a: nat, id: int)
    requires a <= |msgs|
    ensures Verdict(msgs, id) == if Verdict(msgs[a..], id).Some? then Verdict(msgs[a..], id) else Verdict(msgs[..a], id)
  {
    var n := |msgs| - 1;
    if a <= n {
      VerdictOfSplit(msgs[..n], a, id);
      assert msgs[..n][..a] == msgs[..a] && msgs[a..][..n - a] == msgs[..n][a..];
    } else {
      assert msgs[..a] == msgs && msgs[a..] == [];
    }
  }

  /** A snapshot that stands at message `s`, replayed from any message `a` at or before it, ends where
      the whole run of messages ends. */
  lemma ReplayConverges(ids: set<int>, msgs: seq<AlertRow>, a: nat, s: nat)
    requires a <= s <= |msgs|
    ensures Replay(Replay(ids, msgs[..s]), msgs[a..]) == Replay(ids, msgs)
  {
    forall id
      ensures id in Replay(Replay(ids, msgs[..s]), msgs[a..]) <==> id in Replay(ids, msgs)
    {
      ReplayFollowsVerdict(Replay(ids, msgs[..s]), msgs[a..], id);
      ReplayFollowsVerdict(ids, msgs[..s], id);
      ReplayFollowsVerdict(ids, msgs, id);
      VerdictOfSplit(msgs, a, id);
      VerdictOfSplit(msgs[a..], s - a, id);
      VerdictOfSplit(msgs[..s], a, id);
      assert msgs[a..][..s - a] == msgs[..s][a..] && msgs[..s][..a] == msgs[..a];
    }
  }

  /** Messages `s` to `b` never arrive: an id ends up right exactly when a later message speaks of it,
      or the lost ones do not, or the last lost one says what the snapshot already shows. */
  lemma IdAcrossGap(ids: set<int>, msgs: seq<AlertRow>, s: nat, b: nat, id: int)
    requires s <= b <= |msgs|
    ensures var snap := Replay(ids, msgs[..s]);
      (id in Replay(snap, msgs[b..]) <==> id in Replay(ids, msgs)) <==>
        (Verdict(msgs[b..], id).None? && Verdict(msgs[s..b], id).Some?
         ==> (Verdict(msgs[s..b], id).value.Firing? <==> id in snap))
  {
    ReplayFollowsVerdict(Replay(ids, msgs[..s]), msgs[b..], id);
    ReplayFollowsVerdict(ids, msgs, id);
    ReplayFollowsVerdict(ids, msgs[..s], id);
    VerdictOfSplit(msgs, b, id);
    VerdictOfSplit(msgs[..b], s, id);
    assert msgs[..b][..s] == msgs[..s] && msgs[..b][s..] == msgs[s..b];
  }

  ghost predicate GapIsHarmless(ids: set<int>, msgs: seq<AlertRow>, s: nat, b: nat)
    requires s <= b <= |msgs|
  {
    forall id | Verdict(msgs[b..], id).None? && Verdict(msgs[s..b], id).Some? ::
      Verdict(msgs[s..b], id).value.Firing? <==> id in Replay(ids, msgs[..s])
  }

  /** A snapshot replayed with a gap converges exactly when the gap is harmless in this sense. */
  lemma ReplayAcrossGap(ids: set<int>, msgs: seq<AlertRow>, s: nat, b: nat)
    requires s <= b <= |msgs|
    ensures Replay(Replay(ids, msgs[..s]), msgs[b..]) == Replay(ids, msgs) <==> GapIsHarmless(ids, msgs, s, b)
  {
    var got, want := Replay(Replay(ids, msgs[..s]), msgs[b..]), Replay(ids, msgs);
    if GapIsHarmless(ids, msgs, s, b) {
      forall id ensures id in got <==> id in want { IdAcrossGap(ids, msgs, s, b, id); }
      assert got == want;
    }
    if got == want {
      forall id | Verdict(msgs[b..], id).None? && Verdict(msgs[s..b], id).Some?
        ensures Verdict(msgs[s..b], id).value.Firing? <==> id in Replay(ids, msgs[..s])
      {
        IdAcrossGap(ids, msgs, s, b, id);
      }
    }
  }

  /** What an engine's own log is like: of one alert at most a firing message and then a resolved one, and none
      says firing of an alert that was firing at the start. */
  ghost predicate Orderly(ids: set<int>, msgs: seq<AlertRow>) {
    && (forall i, j | 0 <= i < j < |msgs| && msgs[i].id == msgs[j].id ::
          msgs[i].state.Firing? && msgs[j].state.Resolved?)
    && (forall i | 0 <= i < |msgs| && msgs[i].state.Firing? :: msgs[i].id !in ids)
  }

  ghost predicate ResolvedLater(msgs: seq<AlertRow>, i: nat)
    requires i < |msgs|
  {
    exists j :: i < j < |msgs| && msgs[j].id == msgs[i].id && msgs[j].state.Resolved?
  }

  /** What arrives of a list of messages. */
  function Received(msgs: seq<AlertRow>, got: nat -> bool): seq<AlertRow> {
    if msgs == [] then [] else
      var last := |msgs| - 1;
      Received(msgs[..last], got) + if got(last) then [msgs[last]] else []
  }

  /** Of a message's alert some message arrives. */
  ghost predicate HeardOf(msgs: seq<AlertRow>, got: nat -> bool, id: int) {
    exists i: nat :: i < |msgs| && got(i) && msgs[i].id == id
  }

  /** Lost message `i` says nothing a browser showing `shown` needs: a resolved one of an alert neither shown nor
      heard of, or a firing one of an alert that is shown or is resolved later. */
  ghost predicate NotMissed(shown: set<int>, msgs: seq<AlertRow>, got: nat -> bool, i: nat)
    requires i < |msgs|
  {
    if msgs[i].state.Resolved? then msgs[i].id !in shown && !HeardOf(msgs, got, msgs[i].id)
    else msgs[i].id in shown || ResolvedLater(msgs, i)
  }

  ghost predicate NothingMissed(shown: set<int>, msgs: seq<AlertRow>, got: nat -> bool) {
    forall i: nat | i < |msgs| && !got(i) :: NotMissed(shown, msgs, got, i)
  }

  /** What the last message that arrives about an id says of it. */
  lemma {:induction false} LastReceived(msgs: seq<AlertRow>, got: nat -> bool, id: int) returns (i: int)
    ensures -1 <= i < |msgs| && (forall j | i < j < |msgs| && got(j) :: msgs[j].id != id)
    ensures i >= 0 ==> got(i) && msgs[i].id == id && Verdict(Received(msgs, got), id) == Some(msgs[i].state)
    ensures i < 0 ==> Verdict(Received(msgs, got), id) == None
  {
    if msgs == [] { return -1; }
    var last := |msgs| - 1;
    var front := Received(msgs[..last], got);
    if got(last) {
      assert (front + [msgs[last]])[..|front|] == front;
      if msgs[last].id == id { return last; }
    } else {
      assert front + [] == front;
    }
    i := LastReceived(msgs[..last], got, id);
  }

  /** The last message about an id, if there is one. */
  lemma {:induction false} LastMessage(msgs: seq<AlertRow>, id: int) returns (i: int)
    ensures -1 <= i < |msgs| && (forall j | i < j < |msgs| :: msgs[j].id != id)
    ensures i >= 0 ==> msgs[i].id == id && Verdict(msgs, id) == Some(msgs[i].state)
    ensures i < 0 ==> Verdict(msgs, id) == None
  {
    if msgs == [] { return -1; }
    if msgs[|msgs| - 1].id == id { return |msgs| - 1; }
    i := LastMessage(msgs[..|msgs| - 1], id);
  }

  /** Which ids a snapshot at message `p` shows. */
  lemma ShownAt(ids: set<int>, msgs: seq<AlertRow>, p: nat, id: int)
    requires p <= |msgs|
    ensures (forall j | 0 <= j < p :: msgs[j].id != id) ==> (id in Replay(ids, msgs[..p]) <==> id in ids)
    ensures forall i | 0 <= i < p && msgs[i].id == id && (forall j | i < j < p :: msgs[j].id != id) ::
              id in Replay(ids, msgs[..p]) <==> msgs[i].state.Firing?
  {
    ReplayFollowsVerdict(ids, msgs[..p], id);
    var last := LastMessage(msgs[..p], id);
    assert forall j | 0 <= j < p :: msgs[..p][j] == msgs[j];
  }

  /** No lost message about the id is missed. */
  ghost predicate NotMissedOf(snap: set<int>, msgs: seq<AlertRow>, got: nat -> bool, id: int) {
    forall i: nat | i < |msgs| && !got(i) && msgs[i].id == id :: NotMissed(snap, msgs, got, i)
  }

  /** One id ends up right exactly when no lost message about it is missed. */
  lemma {:induction false} IdEndsRight(ids: set<int>, msgs: seq<AlertRow>, p: nat, got: nat -> bool, id: int)
    requires p <= |msgs| && Orderly(ids, msgs)
    ensures var snap := Replay(ids, msgs[..p]);
      (id in Replay(snap, Received(msgs, got)) <==> id in Replay(ids, msgs)) <==> NotMissedOf(snap, msgs, got, id)
  {
    var snap := Replay(ids, msgs[..p]);
    var r := LastReceived(msgs, got, id);
    var l := LastMessage(msgs, id);
    ReplayFollowsVerdict(snap, Received(msgs, got), id);
    ReplayFollowsVerdict(ids, msgs, id);
    ShownAt(ids, msgs, p, id);
    if l >= 0 {
      if msgs[l].state.Firing? {
        FiringIsAlone(ids, msgs, l);
        assert !got(l) ==> (NotMissed(snap, msgs, got, l) <==> id in snap);
      } else {
        FiringsAreResolved(msgs, got, snap, l);
        assert r >= 0 && r != l ==> HeardOf(msgs, got, id);
        assert r < 0 ==> !HeardOf(msgs, got, id);
      }
    }
  }

  /** An alert that still fires has one message. */
  lemma FiringIsAlone(ids: set<int>, msgs: seq<AlertRow>, l: nat)
    requires l < |msgs| && Orderly(ids, msgs) && msgs[l].state.Firing?
    requires forall j | l < j < |msgs| :: msgs[j].id != msgs[l].id
    ensures forall j | 0 <= j < |msgs| && j != l :: msgs[j].id != msgs[l].id
    ensures msgs[l].id !in ids && !ResolvedLater(msgs, l)
  {}

  lemma FiringsAreResolved(msgs: seq<AlertRow>, got: nat -> bool, snap: set<int>, l: nat)
    requires l < |msgs| && msgs[l].state.Resolved?
    requires forall j | l < j < |msgs| :: msgs[j].id != msgs[l].id
    requires forall j | 0 <= j < l && msgs[j].id == msgs[l].id :: msgs[j].state.Firing?
    ensures forall i: nat | i < l && msgs[i].id == msgs[l].id :: NotMissed(snap, msgs, got, i)
  {
    forall i: nat | i < l && msgs[i].id == msgs[l].id ensures NotMissed(snap, msgs, got, i) {
      assert ResolvedLater(msgs, i);
    }
  }

  /** Any messages of such a log may be lost, also ones older than the snapshot, which stands at message `p`: the
      browser converges exactly when none of them is missed. */
  lemma {:induction false} LossOnALog(ids: set<int>, msgs: seq<AlertRow>, p: nat, got: nat -> bool)
    requires p <= |msgs| && Orderly(ids, msgs)
    ensures var snap := Replay(ids, msgs[..p]);
      Replay(snap, Received(msgs, got)) == Replay(ids, msgs) <==> NothingMissed(snap, msgs, got)
  {
    var snap := Replay(ids, msgs[..p]);
    var end, want := Replay(snap, Received(msgs, got)), Replay(ids, msgs);
    hide Replay, Received, NotMissed, Orderly;
    if end == want {
      forall i: nat | i < |msgs| && !got(i) ensures NotMissed(snap, msgs, got, i) {
        IdEndsRight(ids, msgs, p, got, msgs[i].id);
        assert NotMissedOf(snap, msgs, got, msgs[i].id);
      }
    }
    if NothingMissed(snap, msgs, got) {
      forall id ensures id in end <==> id in want {
        assert NotMissedOf(snap, msgs, got, id);
        IdEndsRight(ids, msgs, p, got, id);
      }
    }
  }

  // The reducer's list.

  lemma IdsOfCons(a: AlertRow, rest: seq<AlertRow>)
    ensures Ids([a] + rest) == {a.id} + Ids(rest)
  {
    assert a in [a] + rest;
    forall x | x in rest ensures x in [a] + rest {}
    forall x | x in [a] + rest ensures x == a || x in rest {}
  }

  lemma {:induction false} WithoutDropsTheId(alerts: seq<AlertRow>, id: int)
    ensures Ids(Without(alerts, id)) == Ids(alerts) - {id}
    ensures forall a | a in Without(alerts, id) :: a in alerts
  {
    if alerts != [] {
      WithoutDropsTheId(alerts[1..], id);
      IdsOfCons(alerts[0], alerts[1..]);
      IdsOfCons(alerts[0], Without(alerts[1..], id));
      assert alerts == [alerts[0]] + alerts[1..];
    }
  }

  /** No id is listed twice. */
  predicate DistinctIds(alerts: seq<AlertRow>) {
    forall i, j | 0 <= i < j < |alerts| :: alerts[i].id != alerts[j].id
  }

  lemma {:induction false} WithoutKeepsDistinct(alerts: seq<AlertRow>, id: int)
    requires DistinctIds(alerts)
    ensures DistinctIds(Without(alerts, id))
  {
    if alerts != [] {
      var rest := Without(alerts[1..], id);
      WithoutKeepsDistinct(alerts[1..], id);
      WithoutDropsTheId(alerts[1..], id);
      forall j | 0 <= j < |rest| ensures rest[j].id != alerts[0].id { assert rest[j] in alerts[1..]; }
    }
  }

  /** The alert messages among some actions, in order. */
  function AlertsIn(actions: seq<Action>): seq<AlertRow> {
    if actions == [] then [] else
      var before, last := AlertsIn(actions[..|actions| - 1]), actions[|actions| - 1];
      if last.Live? && last.message.AlertMessage? then before + [last.message.a] else before
  }

  lemma LiveStep(state: State, msg: LiveMessage)
    requires state.overview.Some? && DistinctIds(state.overview.value.alerts)
    ensures ApplyLive(state, msg).overview.Some? && DistinctIds(ApplyLive(state, msg).overview.value.alerts)
    ensures Ids(ApplyLive(state, msg).overview.value.alerts)
         == if msg.AlertMessage? then Replay(Ids(state.overview.value.alerts), [msg.a])
            else Ids(state.overview.value.alerts)
  {
    var list := state.overview.value.alerts;
    match msg
    case AlertMessage(a) =>
      WithoutDropsTheId(list, a.id);
      WithoutKeepsDistinct(list, a.id);
      IdsOfCons(a, Without(list, a.id));
      assert [a][..0] == [];
    case AckMessage(id, at) =>
      IdsByPosition(list, Acked(list, id, at));
    case OtherMessage =>
  }

  lemma {:induction false} WithoutOf(front: seq<AlertRow>, rest: seq<AlertRow>, id: int)
    requires forall x | x in front :: x.id != id
    ensures Without(front + rest, id) == front + Without(rest, id)
  {
    if front == [] {
      assert front + rest == rest;
    } else {
      assert (front + rest)[1..] == front[1..] + rest;
      WithoutOf(front[1..], rest, id);
    }
  }

  lemma {:induction false} WithoutAllOf(was: seq<AlertRow>, rest: seq<AlertRow>, id: int)
    requires forall x | x in was :: x.id == id
    ensures Without(was + rest, id) == Without(rest, id)
  {
    if was == [] {
      assert was + rest == rest;
    } else {
      assert (was + rest)[1..] == was[1..] + rest;
      WithoutAllOf(was[1..], rest, id);
    }
  }

  /** A message takes its alert out of the list, wherever it stands, and puts a firing one first; the others keep
      their order. */
  lemma MessageReorders(state: State, front: seq<AlertRow>, was: seq<AlertRow>, back: seq<AlertRow>, a: AlertRow)
    requires state.overview.Some? && state.overview.value.alerts == front + (was + back)
    requires forall x | x in front + back :: x.id != a.id
    requires forall x | x in was :: x.id == a.id
    ensures ApplyLive(state, AlertMessage(a)).overview ==
              Some(Overview(if a.state.Firing? then [a] + (front + back) else front + back))
  {
    assert forall x | x in front :: x in front + back;
    assert forall x | x in back :: x in front + back;
    WithoutOf(front, was + back, a.id);
    WithoutAllOf(was, back, a.id);
    WithoutOf(back, [], a.id);
    assert back + [] == back;
  }

  /** After a load, as long as no other load comes, the listed ids are the loaded ones with the alert
      messages replayed, whatever other messages mix in; no id is listed twice. */
  lemma {:induction false} ListFollowsReplay(state: State, alerts: seq<AlertRow>, actions: seq<Action>)
    requires DistinctIds(alerts) && forall x | x in actions :: !x.Loaded?
    ensures var end := ReduceAll(Reduce(state, Loaded(Overview(alerts))), actions);
      end.overview.Some? && DistinctIds(end.overview.value.alerts)
      && Ids(end.overview.value.alerts) == Replay(Ids(alerts), AlertsIn(actions))
  {
    if actions != [] {
      var front, last := actions[..|actions| - 1], actions[|actions| - 1];
      ListFollowsReplay(state, alerts, front);
      var s := ReduceAll(Reduce(state, Loaded(Overview(alerts))), front);
      assert !last.Loaded?;
      if last.Live? {
        LiveStep(s, last.message);
        if last.message.AlertMessage? {
          assert (AlertsIn(front) + [last.message.a])[..|AlertsIn(front)|] == AlertsIn(front);
        }
      }
    }
  }

  lemma IdsByPosition(a: seq<AlertRow>, b: seq<AlertRow>)
    requires |a| == |b| && forall i | 0 <= i < |a| :: a[i].id == b[i].id
    ensures Ids(a) == Ids(b)
  {
    forall x | x in Ids(a) ensures x in Ids(b) {
      var i :| 0 <= i < |a| && a[i].id == x;
      assert b[i] in b;
    }
    forall x | x in Ids(b) ensures x in Ids(a) {
      var i :| 0 <= i < |b| && b[i].id == x;
      assert a[i] in a;
    }
  }

  // One alert's entry in the list.

  function Entry(alerts: seq<AlertRow>, id: int): Option<AlertRow> {
    if alerts == [] then None
    else if alerts[0].id == id then Some(alerts[0])
    else Entry(alerts[1..], id)
  }

  /** What an action does to the entry of one id, whatever else is listed. */
  function EntryStep(entry: Option<AlertRow>, id: int, action: Action): Option<AlertRow> {
    match action
    case Loaded(overview) => Entry(overview.alerts, id)
    case Live(AlertMessage(a)) =>
      if a.id != id then entry else if a.state.Resolved? then None else Some(a)
    case Live(AckMessage(acked, at)) =>
      if acked == id && entry.Some? then Some(entry.value.(ackedAt := at)) else entry
    case _ => entry
  }

  function EntryAfter(entry: Option<AlertRow>, id: int, actions: seq<Action>): Option<AlertRow> {
    if actions == [] then entry
    else EntryStep(EntryAfter(entry, id, actions[..|actions| - 1]), id, actions[|actions| - 1])
  }

  lemma {:induction false} EntryWithout(alerts: seq<AlertRow>, gone: int, id: int)
    ensures Entry(Without(alerts, gone), id) == if gone == id then None else Entry(alerts, id)
  {
    if alerts != [] {
      EntryWithout(alerts[1..], gone, id);
      var rest := Without(alerts[1..], gone);
      assert ([alerts[0]] + rest)[1..] == rest;
    }
  }

  lemma {:induction false} EntryAcked(alerts: seq<AlertRow>, acked: int, at: int, id: int)
    ensures Entry(Acked(alerts, acked, at), id) ==
            if acked == id && Entry(alerts, id).Some? then Some(Entry(alerts, id).value.(ackedAt := at))
            else Entry(alerts, id)
  {
    if alerts != [] {
      EntryAcked(alerts[1..], acked, at, id);
      assert Acked(alerts, acked, at)[1..] == Acked(alerts[1..], acked, at);
    }
  }

  lemma ReduceStep(state: State, action: Action, id: int)
    requires state.overview.Some?
    ensures Reduce(state, action).overview.Some?
    ensures Entry(Reduce(state, action).overview.value.alerts, id) ==
            EntryStep(Entry(state.overview.value.alerts, id), id, action)
  {
    var alerts := state.overview.value.alerts;
    match action
    case Live(AlertMessage(a)) =>
      EntryWithout(alerts, a.id, id);
      assert ([a] + Without(alerts, a.id))[1..] == Without(alerts, a.id);
    case Live(AckMessage(acked, at)) =>
      EntryAcked(alerts, acked, at, id);
    case _ =>
  }

  /** Each alert's entry follows its own messages and acknowledgements, and those of no other alert. */
  lemma {:induction false} EntryFollowsItsMessages(state: State, actions: seq<Action>, id: int)
    requires state.overview.Some?
    ensures ReduceAll(state, actions).overview.Some?
    ensures Entry(ReduceAll(state, actions).overview.value.alerts, id) ==
            EntryAfter(Entry(state.overview.value.alerts, id), id, actions)
  {
    if actions != [] {
      EntryFollowsItsMessages(state, actions[..|actions| - 1], id);
      ReduceStep(ReduceAll(state, actions[..|actions| - 1]), actions[|actions| - 1], id);
    }
  }
}
