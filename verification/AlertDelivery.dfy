/** From the alert rows to the notifications: which transitions of a row are told, in any run with crashes. */
module AlertDelivery {
  import opened Common
  import opened AlertKeys
  import opened AlertModel
  import opened AlertSafety
  import opened AlertReplay
  import opened Mailbox

  // What each event does to the notifications.

  function TakesOf(es: seq<SideEvent>): seq<Move> {
    if es == [] then [] else TakesOf(es[..|es| - 1]) + if es[|es| - 1].Take? then [Took] else []
  }

  /** The transition a visit of `k` makes if its store call is made and succeeds. */
  function PostOf(s: Sys, env: Env, k: Key): Post {
    if k in env.active then Post(s.nextID, Firing) else Post(HeldID(s.tracks, k), Resolved)
  }

  function NoteOf(s: Sys, env: Env, k: Key): Notification
    requires k in env.active || k in s.tracks
  {
    if k in env.active then
      var c := env.active[k];
      Notification(Text(Firing, c.severity, c.rule, c.targetName, c.message, env.now), s.nextID)
    else
      var tr := s.tracks[k];
      Notification(Text(Resolved, tr.severity, RuleOf(k), tr.targetName, tr.message, env.now), 0)
  }

  /** The visit changes its key's row. */
  predicate Turns(s: Sys, env: Env, k: Key) { Visit(s, env, k).posts != s.posts }

  function VisitMoves(s: Sys, env: Env, k: Key): seq<Move> {
    if !Turns(s, env, k) then []
    else TakesOf(Amid(env, k)) + [Sent(Mail(PostOf(s, env, k), NoteOf(s, env, k)), env.notifier)]
  }

  /** A visit cut short by a crash after its store write. */
  function HalfMoves(s: Sys, env: Env, k: Key): seq<Move> {
    if !Turns(s, env, k) then [] else TakesOf(Amid(env, k)) + [Cut(PostOf(s, env, k))]
  }

  function CutMoves(s: Sys, env: Env, half: Option<(Key, Cut)>): seq<Move> {
    if half.Some? then HalfMoves(s, env, half.value.0) else []
  }

  function ActMoves(s: Sys, env: Env, a: Act): seq<Move> {
    match a
    case Look(k) => VisitMoves(s, env, k)
    case Side(e) => TakesOf([e])
  }

  function ScriptMoves(s: Sys, env: Env, script: seq<Act>): seq<Move> {
    if script == [] then [] else
      var front := script[..|script| - 1];
      ScriptMoves(s, env, front) + ActMoves(Process(s, env, front), env, script[|script| - 1])
  }

  function EventMoves(s: Sys, e: Event): seq<Move> {
    match e
    case Evaluate(env, script) => ScriptMoves(s, env, script)
    case CrashInEvaluate(env, script, half) =>
      ScriptMoves(s, env, script) + CutMoves(Process(s, env, script), env, half) + [Lost]
    case CrashIdle => [Lost]
    case Between(e) => TakesOf([e])
  }

  ghost function Moves(s: Sys, events: seq<Event>): seq<Move> {
    if events == [] then [] else
      var front := events[..|events| - 1];
      Moves(s, front) + EventMoves(RunFrom(s, front), events[|events| - 1])
  }

  lemma OneMoreAct(s: Sys, env: Env, front: seq<Act>, a: Act)
    ensures Process(s, env, front + [a]) == AfterAct(Process(s, env, front), env, a)
    ensures ScriptMoves(s, env, front + [a])
         == ScriptMoves(s, env, front) + ActMoves(Process(s, env, front), env, a)
  {
    hide AfterAct, ActMoves;
    assert (front + [a])[..|front|] == front;
  }

  // The books are right.

  /** The firing ids a list of transitions leads to. */
  function Shown(ids: set<int>, changes: seq<Post>): set<int> {
    if changes == [] then ids else
      var before, last := Shown(ids, changes[..|changes| - 1]), changes[|changes| - 1];
      if last.state.Firing? then before + {last.row} else before - {last.row}
  }

  /** A notification tells of its transition; a resolved one carries no row id. */
  predicate Tells(m: Mail) {
    m.note.text.state == m.post.state && m.note.alertID == if m.post.state.Firing? then m.post.row else 0
  }

  predicate AllTell(moves: seq<Move>) { forall m | m in moves && m.Sent? :: Tells(m.mail) }

  /** From books `b` in state `s`, the moves lead to books whose queue is that of `t`; their enqueue calls are what
      was posted on the way. */
  ghost predicate Follows(b: Books, s: Sys, moves: seq<Move>, t: Sys) {
    && Notes(Booked(b, moves).waiting) == t.queue
    && t.posts == s.posts + PostsIn(moves)
    && AllTell(moves)
  }

  /** The transitions since `s` are those of the table: each at most once, firing first, and together they lead
      from its firing ids then to those now. */
  ghost predicate ChangesMatch(s: Sys, changes: seq<Post>, t: Sys) {
    && PostedInOrder(changes) && PostsMatchRows(t.(posts := changes))
    && FiringIds(t) == Shown(FiringIds(s), changes)
  }

  lemma NotesOfOneMore(a: seq<Mail>, m: Mail)
    ensures Notes(a + [m]) == Notes(a) + [m.note]
  {}

  lemma OneTake(b: Books, s: Sys)
    requires Notes(b.waiting) == s.queue
    ensures Notes(Book(b, Took).waiting) == AfterSide(s, Take).queue
  {}

  lemma {:induction false} SidesMatch(b: Books, s: Sys, es: seq<SideEvent>)
    requires Notes(b.waiting) == s.queue
    ensures Notes(Booked(b, TakesOf(es)).waiting) == AfterSides(s, es).queue
    ensures forall m | m in TakesOf(es) :: m.Took?
  {
    if es != [] {
      var front, last := es[..|es| - 1], es[|es| - 1];
      SidesMatch(b, s, front);
      if last.Take? {
        OneTake(Booked(b, TakesOf(front)), AfterSides(s, front));
        BookedOne(b, TakesOf(front), Took);
      } else {
        assert TakesOf(es) == TakesOf(front) + [] == TakesOf(front);
      }
    }
  }

  lemma BookedOne(b: Books, moves: seq<Move>, m: Move)
    ensures Booked(b, moves + [m]) == Book(Booked(b, moves), m)
  {
    assert (moves + [m])[..|moves|] == moves;
  }

  lemma {:induction false} TakesAreQuiet(es: seq<SideEvent>)
    ensures PostsIn(TakesOf(es)) == [] && Changes(TakesOf(es)) == []
  {
    if es != [] {
      TakesAreQuiet(es[..|es| - 1]);
      ChangesOfBoth(TakesOf(es[..|es| - 1]), if es[|es| - 1].Take? then [Took] else []);
      if es[|es| - 1].Take? { OneMove(Took); }
    }
  }

  lemma OneMove(m: Move)
    ensures Changes([m]) == ChangeIn(m) && PostsIn([m]) == if m.Sent? then [m.mail.post] else []
  {
    assert [m][..0] == [];
  }

  /** A visit that turns its row: others take first, then the notification meets the queue. */
  lemma TurnEnqueues(s: Sys, env: Env, k: Key) returns (stored: Sys)
    requires Turns(s, env, k)
    ensures stored.queue == s.queue && Visit(s, env, k).posts == s.posts + [PostOf(s, env, k)]
    ensures Visit(s, env, k).queue
         == Enqueued(AfterSides(stored, Amid(env, k)).queue, NoteOf(s, env, k), env.notifier)
  {
    hide AfterSides, Enqueued, Amid;
    if k in env.active {
      var cond := env.active[k];
      var tr := (if k in s.tracks then s.tracks[k] else FreshTrack).(
        clearSince := None, targetName := cond.targetName, severity := cond.severity);
      var tr' := tr.(pendingSince := if tr.pendingSince.None? then Some(env.now) else tr.pendingSince);
      var s' := s.(tracks := s.tracks[k := tr']);
      assert Visit(s, env, k) == Fire(s', env, k, cond, tr');
      stored := s'.(rows := s'.rows[s'.nextID := NewRow(s'.nextID, cond, Unix(env.now))], nextID := s'.nextID + 1);
    } else {
      var tr := s.tracks[k].(pendingSince := None);
      var tr' := tr.(clearSince := if tr.clearSince.None? then Some(env.now) else tr.clearSince);
      var s' := s.(tracks := s.tracks[k := tr']);
      assert Visit(s, env, k) == Resolve(s', env, k, tr');
      stored := s'.(rows := ResolveRow(s'.rows, tr'.alertID, Unix(env.now)));
    }
  }

  lemma SendMatches(b: Books, s: Sys, mail: Mail, notifier: bool)
    requires Notes(b.waiting) == s.queue
    ensures Notes(Book(b, Sent(mail, notifier)).waiting) == Enqueued(s.queue, mail.note, notifier)
  {
    NotesOfOneMore(b.waiting, mail);
  }

  /** One visit, booked. */
  lemma {:induction false} VisitBooked(b: Books, s: Sys, env: Env, k: Key)
    requires Inv(s) && ValidEnv(env) && Notes(b.waiting) == s.queue
    ensures Follows(b, s, VisitMoves(s, env, k), Visit(s, env, k))
  {
    hide Visit, Inv, Notes, Book, NoteOf, PostOf, Enqueued;
    VisitShape(s, env, k);
    if Turns(s, env, k) {
      var stored := TurnEnqueues(s, env, k);
      var takes, mail := TakesOf(Amid(env, k)), Mail(PostOf(s, env, k), NoteOf(s, env, k));
      SidesMatch(b, stored, Amid(env, k));
      SendMatches(Booked(b, takes), AfterSides(stored, Amid(env, k)), mail, env.notifier);
      BookedOne(b, takes, Sent(mail, env.notifier));
      TakesAreQuiet(Amid(env, k));
      ChangesOfBoth(takes, [Sent(mail, env.notifier)]);
      OneMove(Sent(mail, env.notifier));
      NoteTells(s, env, k);
    } else {
      StillWaiting(s, env, k);
    }
  }

  lemma NoteTells(s: Sys, env: Env, k: Key)
    requires k in env.active || k in s.tracks
    ensures Tells(Mail(PostOf(s, env, k), NoteOf(s, env, k)))
  {}

  lemma StillWaiting(s: Sys, env: Env, k: Key)
    requires Visited(s, Visit(s, env, k), env, k) && !Turns(s, env, k)
    ensures Visit(s, env, k).queue == s.queue
  {}

  lemma FollowsOn(b: Books, s: Sys, m1: seq<Move>, t: Sys, m2: seq<Move>, u: Sys)
    requires Follows(b, s, m1, t) && Follows(Booked(b, m1), t, m2, u)
    ensures Follows(b, s, m1 + m2, u)
  {
    hide Booked, Notes, PostsIn, Changes, AllTell;
    BookedBoth(b, m1, m2);
    ChangesOfBoth(m1, m2);
    Regroup(s.posts, PostsIn(m1), PostsIn(m2));
    TellBoth(m1, m2);
  }

  lemma TellBoth(a: seq<Move>, b: seq<Move>)
    requires AllTell(a) && AllTell(b)
    ensures AllTell(a + b)
  {
    hide Tells;
  }

  lemma SideBooked(b: Books, s: Sys, e: SideEvent)
    requires Notes(b.waiting) == s.queue
    ensures Follows(b, s, TakesOf([e]), AfterSide(s, e))
  {
    assert [e][..0] == [];
    assert AfterSides(s, [e]) == AfterSide(s, e);
    SidesMatch(b, s, [e]);
    TakesAreQuiet([e]);
  }

  lemma NothingBooked(b: Books, s: Sys)
    requires Notes(b.waiting) == s.queue
    ensures Follows(b, s, [], s)
  {}

  lemma {:induction false} ScriptBooked(b: Books, s: Sys, env: Env, script: seq<Act>)
    requires Inv(s) && ValidEnv(env) && Notes(b.waiting) == s.queue
    ensures Follows(b, s, ScriptMoves(s, env, script), Process(s, env, script))
  {
    if script == [] {
      NothingBooked(b, s);
    } else {
      hide Inv, Follows, VisitMoves, TakesOf, Visit, AfterSide, ValidEnv, Booked;
      var front, last := script[..|script| - 1], script[|script| - 1];
      var t, moves := Process(s, env, front), ScriptMoves(s, env, front);
      ScriptBooked(b, s, env, front);
      ProcessKeepsInv(s, env, front);
      QueueIsBooked(b, s, moves, t);
      match last {
        case Look(k) => VisitBooked(Booked(b, moves), t, env, k);
        case Side(e) => SideBooked(Booked(b, moves), t, e);
      }
      FollowsOn(b, s, moves, t, ActMoves(t, env, last), Process(s, env, script));
    }
  }

  lemma QueueIsBooked(b: Books, s: Sys, moves: seq<Move>, t: Sys)
    requires Follows(b, s, moves, t)
    ensures Notes(Booked(b, moves).waiting) == t.queue
  {}

  lemma HalfIsQuiet(s: Sys, env: Env, k: Key)
    ensures PostsIn(HalfMoves(s, env, k)) == [] && AllTell(HalfMoves(s, env, k))
    ensures Changes(HalfMoves(s, env, k)) == if Turns(s, env, k) then [PostOf(s, env, k)] else []
  {
    hide Visit, PostOf;
    if Turns(s, env, k) {
      var cut := Cut(PostOf(s, env, k));
      var none := BooksOf([]);
      TakesAreQuiet(Amid(env, k));
      TakesTakeOnly(Amid(env, k));
      ChangesOfBoth(TakesOf(Amid(env, k)), [cut]);
      OneMove(cut);
    }
  }

  lemma {:induction false} TakesTakeOnly(es: seq<SideEvent>)
    ensures forall m | m in TakesOf(es) :: m.Took?
  {
    if es != [] { TakesTakeOnly(es[..|es| - 1]); }
  }

  /** A crash empties the queue, whatever an interrupted visit still took from it. */
  lemma CrashBooked(b: Books, s: Sys, moves: seq<Move>, t: Sys, more: seq<Move>, u: Sys)
    requires Follows(b, s, moves, t) && PostsIn(more) == [] && AllTell(more) && u.posts == t.posts && u.queue == []
    ensures Follows(b, s, moves + more + [Lost], u)
  {
    hide PostsIn, Booked;
    BookedOne(b, moves + more, Lost);
    ChangesOfBoth(moves, more);
    ChangesOfBoth(moves + more, [Lost]);
    OneMove(Lost);
  }

  lemma {:induction false} EventBooked(b: Books, s: Sys, e: Event)
    requires Inv(s) && Possible(s, e) && Notes(b.waiting) == s.queue
    ensures Follows(b, s, EventMoves(s, e), After(s, e))
  {
    hide Inv, Follows, Process, ScriptMoves, HalfMoves, AllTell, PostsIn, TakesOf, AfterSide;
    match e
    case Evaluate(env, script) => ScriptBooked(b, s, env, script);
    case CrashInEvaluate(env, script, half) =>
      ScriptBooked(b, s, env, script);
      var t, moves := Process(s, env, script), ScriptMoves(s, env, script);
      var more := CutMoves(t, env, half);
      NoMoves();
      if half.Some? { HalfIsQuiet(t, env, half.value.0); }
      CrashBooked(b, s, moves, t, more, After(s, e));
    case CrashIdle =>
      NoMoves();
      NothingBooked(b, s);
      CrashBooked(b, s, [], s, [], After(s, e));
      assert [] + [] + [Lost] == [Lost];
    case Between(side) => SideBooked(b, s, side);
  }

  lemma NoMoves()
    ensures PostsIn([]) == [] && Changes([]) == [] && AllTell([])
  {}

  /** Any run, crashes included, from an empty queue: the books' queue is the engine's. */
  lemma {:induction false} RunBooked(s: Sys, events: seq<Event>)
    requires Inv(s) && s.queue == [] && FeasibleFrom(s, events)
    ensures Inv(RunFrom(s, events)) && Follows(BooksOf([]), s, Moves(s, events), RunFrom(s, events))
  {
    if events == [] {
      NothingBooked(BooksOf([]), s);
    } else {
      hide Inv, Follows, EventMoves, After, Booked;
      var front, last := events[..|events| - 1], events[|events| - 1];
      FeasiblePart(s, events);
      RunBooked(s, front);
      var t, moves := RunFrom(s, front), Moves(s, front);
      QueueIsBooked(BooksOf([]), s, moves, t);
      EventBooked(Booked(BooksOf([]), moves), t, last);
      AfterKeepsInv(t, last);
      FollowsOn(BooksOf([]), s, moves, t, EventMoves(t, last), After(t, last));
    }
  }

  lemma FeasiblePart(s: Sys, events: seq<Event>)
    requires events != [] && FeasibleFrom(s, events)
    ensures FeasibleFrom(s, events[..|events| - 1])
    ensures Possible(RunFrom(s, events[..|events| - 1]), events[|events| - 1])
  {
    var n := |events| - 1;
    assert forall i | 0 <= i < n :: events[..n][..i] == events[..i] && events[..n][i] == events[i];
  }

  // The transitions are the table's.

  lemma SameTable(s: Sys, changes: seq<Post>, t: Sys, u: Sys)
    requires ChangesMatch(s, changes, t) && u.nextID == t.nextID && SameFiring(t.rows, u.rows)
    ensures ChangesMatch(s, changes, u)
  {
    SameIds(t.rows, u.rows);
  }

  lemma ShownOne(ids: set<int>, changes: seq<Post>, p: Post)
    ensures Shown(ids, changes + [p])
         == if p.state.Firing? then Shown(ids, changes) + {p.row} else Shown(ids, changes) - {p.row}
  {
    assert (changes + [p])[..|changes|] == changes;
  }

  /** One visit, also one cut short: `u` has the table it leaves. */
  lemma {:induction false} TurnMatches(s: Sys, changes: seq<Post>, t: Sys, env: Env, k: Key, u: Sys)
    requires Inv(t) && ValidEnv(env) && ChangesMatch(s, changes, t)
    requires u.rows == Visit(t, env, k).rows && u.nextID == Visit(t, env, k).nextID
    ensures ChangesMatch(s, changes + if Turns(t, env, k) then [PostOf(t, env, k)] else [], u)
  {
    var v := Visit(t, env, k);
    VisitShape(t, env, k);
    if Waited(t, v, k) {
      SameTable(s, changes, t, u);
      assert changes + [] == changes;
    } else if k in env.active {
      OpeningMatches(s, changes, t, k, NewRow(t.nextID, env.active[k], Unix(env.now)), v, u);
    } else {
      ClosingMatches(s, changes, t, k, Unix(env.now), v, u);
    }
  }

  lemma OpeningMatches(s: Sys, changes: seq<Post>, t: Sys, k: Key, row: AlertRow, v: Sys, u: Sys)
    requires ValidRows(t) && ChangesMatch(s, changes, t) && Opened(t, v, k, row)
    requires u.rows == v.rows && u.nextID == v.nextID
    ensures ChangesMatch(s, changes + [Post(t.nextID, Firing)], u)
  {
    var more := changes + [Post(t.nextID, Firing)];
    OpenedKeepsRest(t.(posts := changes), v.(posts := more), k, row);
    OpenedIds(t, v, k, row);
    ShownOne(FiringIds(s), changes, Post(t.nextID, Firing));
  }

  lemma ClosingMatches(s: Sys, changes: seq<Post>, t: Sys, k: Key, at: int, v: Sys, u: Sys)
    requires Agrees(t) && ValidRows(t) && ChangesMatch(s, changes, t) && Closed(t, v, k, at)
    requires u.rows == v.rows && u.nextID == v.nextID
    ensures ChangesMatch(s, changes + [Post(HeldID(t.tracks, k), Resolved)], u)
  {
    var more := changes + [Post(HeldID(t.tracks, k), Resolved)];
    ClosedKeepsRest(t.(posts := changes), v.(posts := more), k, at);
    ClosedIds(t, v, k, at);
    ShownOne(FiringIds(s), changes, Post(HeldID(t.tracks, k), Resolved));
  }

  lemma {:induction false} ScriptMatches(s: Sys, changes: seq<Post>, t: Sys, env: Env, script: seq<Act>)
    requires Inv(t) && ValidEnv(env) && ChangesMatch(s, changes, t)
    ensures ChangesMatch(s, changes + Changes(ScriptMoves(t, env, script)), Process(t, env, script))
  {
    NoMoves();
    if script == [] {
      assert changes + [] == changes;
    } else {
      hide Inv, ChangesMatch, Process, ScriptMoves, ActMoves, AfterAct, Changes, ValidEnv;
      var front, last := script[..|script| - 1], script[|script| - 1];
      var u, moves := Process(t, env, front), ScriptMoves(t, env, front);
      ScriptMatches(s, changes, t, env, front);
      OneMoreAct(t, env, front, last);
      SplitLast(script);
      ProcessKeepsInv(t, env, front);
      ChangesOfBoth(moves, ActMoves(u, env, last));
      ActMatches(s, changes + Changes(moves), u, env, last);
      Regroup(changes, Changes(moves), Changes(ActMoves(u, env, last)));
    }
  }

  lemma ActMatches(s: Sys, changes: seq<Post>, t: Sys, env: Env, a: Act)
    requires Inv(t) && ValidEnv(env) && ChangesMatch(s, changes, t)
    ensures ChangesMatch(s, changes + Changes(ActMoves(t, env, a)), AfterAct(t, env, a))
  {
    hide Inv, ChangesMatch, Visit, Changes, ValidEnv, PostOf, NoteOf, AfterSide;
    match a
    case Look(k) =>
      TurnMatches(s, changes, t, env, k, Visit(t, env, k));
      ChangesOfVisit(t, env, k);
    case Side(e) => SideMatches(s, changes, t, e);
  }

  lemma SideMatches(s: Sys, changes: seq<Post>, t: Sys, e: SideEvent)
    requires ChangesMatch(s, changes, t)
    ensures ChangesMatch(s, changes + Changes(TakesOf([e])), AfterSide(t, e))
  {
    hide ChangesMatch;
    SideSameFiring(t, e);
    SameTable(s, changes, t, AfterSide(t, e));
    TakesAreQuiet([e]);
    assert changes + [] == changes;
  }

  lemma ChangesOfVisit(s: Sys, env: Env, k: Key)
    ensures Changes(VisitMoves(s, env, k)) == if Turns(s, env, k) then [PostOf(s, env, k)] else []
  {
    hide PostOf, VisitActive, VisitQuiet;
    NoMoves();
    if Turns(s, env, k) {
      var mail := Mail(PostOf(s, env, k), NoteOf(s, env, k));
      TakesAreQuiet(Amid(env, k));
      ChangesOfBoth(TakesOf(Amid(env, k)), [Sent(mail, env.notifier)]);
      OneMove(Sent(mail, env.notifier));
    }
  }

  lemma CutMatches(s: Sys, changes: seq<Post>, t: Sys, env: Env, half: Option<(Key, Cut)>, left: Sys)
    requires Inv(t) && ValidEnv(env) && ChangesMatch(s, changes, t)
    requires left == if half.Some? then Half(t, env, half.value.0, half.value.1) else t
    ensures ChangesMatch(s, changes + Changes(CutMoves(t, env, half)), Restart(left))
  {
    hide Inv, ChangesMatch, Visit, Changes, ValidEnv, PostOf, HalfMoves;
    NoMoves();
    if half.Some? {
      HalfIsQuiet(t, env, half.value.0);
      TurnMatches(s, changes, t, env, half.value.0, left);
    } else {
      assert changes + [] == changes;
    }
    SameRows(left.rows);
    SameTable(s, changes + Changes(CutMoves(t, env, half)), left, Restart(left));
  }

  lemma ChangesOfCrash(s: Sys, env: Env, script: seq<Act>, half: Option<(Key, Cut)>)
    ensures Changes(EventMoves(s, CrashInEvaluate(env, script, half)))
         == Changes(ScriptMoves(s, env, script)) + Changes(CutMoves(Process(s, env, script), env, half))
  {
    hide Changes, ScriptMoves, CutMoves, Process;
    var moves, more := ScriptMoves(s, env, script), CutMoves(Process(s, env, script), env, half);
    ChangesOfBoth(moves, more);
    ChangesOfBoth(moves + more, [Lost]);
    OneMove(Lost);
  }

  lemma {:induction false} CrashMatches(
    s: Sys, changes: seq<Post>, t: Sys, env: Env, script: seq<Act>, half: Option<(Key, Cut)>)
    requires Inv(t) && ValidEnv(env) && ChangesMatch(s, changes, t)
    ensures ChangesMatch(s, changes + Changes(EventMoves(t, CrashInEvaluate(env, script, half))),
                         Restart(Interrupted(t, env, script, half)))
  {
    hide Inv, ChangesMatch, Changes, ValidEnv, Process, ScriptMoves, CutMoves, EventMoves, Half, Restart;
    var u, moves := Process(t, env, script), ScriptMoves(t, env, script);
    ScriptMatches(s, changes, t, env, script);
    ProcessKeepsInv(t, env, script);
    CutMatches(s, changes + Changes(moves), u, env, half, Interrupted(t, env, script, half));
    ChangesOfCrash(t, env, script, half);
    Regroup(changes, Changes(moves), Changes(CutMoves(u, env, half)));
  }

  lemma SameRows(rows: map<int, AlertRow>)
    ensures SameFiring(rows, rows)
  {}

  lemma {:induction false} EventMatches(s: Sys, changes: seq<Post>, t: Sys, e: Event)
    requires Inv(t) && Possible(t, e) && ChangesMatch(s, changes, t)
    ensures ChangesMatch(s, changes + Changes(EventMoves(t, e)), After(t, e))
  {
    hide Inv, ChangesMatch, Changes, Process, ScriptMoves, HalfMoves, AfterSide, TakesOf, Interrupted;
    match e
    case Evaluate(env, script) => ScriptMatches(s, changes, t, env, script);
    case CrashInEvaluate(env, script, half) => CrashMatches(s, changes, t, env, script, half);
    case CrashIdle =>
      OneMove(Lost);
      SameRows(t.rows);
      SameTable(s, changes, t, Restart(t));
      assert changes + [] == changes;
    case Between(side) => SideMatches(s, changes, t, side);
  }

  /** Over any run, crashes included, the transitions are those of the table. */
  lemma {:induction false} RunMatches(s: Sys, events: seq<Event>)
    requires Inv(s) && FeasibleFrom(s, events)
    ensures Inv(RunFrom(s, events)) && ChangesMatch(s, Changes(Moves(s, events)), RunFrom(s, events))
  {
    if events == [] {
      assert PostsMatchRows(s.(posts := []));
    } else {
      hide Inv, ChangesMatch, EventMoves, After, Changes;
      var front, last := events[..|events| - 1], events[|events| - 1];
      FeasiblePart(s, events);
      RunMatches(s, front);
      var t, moves := RunFrom(s, front), Moves(s, front);
      EventMatches(s, Changes(moves), t, last);
      AfterKeepsInv(t, last);
      ChangesOfBoth(moves, EventMoves(t, last));
    }
  }

  // The results. `s` is the state of a process that has just started: its queue is empty.

  /** Over any run with crashes and restarts: the transitions are exactly those of the table, each at most once and
      firing first; the books' queue is the engine's queue, their enqueue calls are its posts, and every
      notification tells of its transition. */
  lemma {:induction false} BooksAreRight(s: Sys, events: seq<Event>)
    requires Inv(s) && s.queue == [] && FeasibleFrom(s, events)
    ensures var end, moves := RunFrom(s, events), Moves(s, events);
      && FiringIds(end) == Shown(FiringIds(s), Changes(moves)) && PostedInOrder(Changes(moves))
      && end.queue == Notes(BooksOf(moves).waiting) && end.posts == s.posts + PostsIn(moves) && AllTell(moves)
  {
    hide RunFrom, Moves, Inv, Changes, FeasibleFrom;
    RunBooked(s, events);
    RunMatches(s, events);
    BooksOfBoth([], Moves(s, events));
    assert [] + Moves(s, events) == Moves(s, events);
  }

  /** What the consumer has taken and what still waits tells each transition at most once, in the order they
      happened; every transition is there, or was dropped, lost with the queue or cut off, exactly one of these. */
  lemma {:induction false} ToldAtMostOnce(s: Sys, events: seq<Event>)
    requires Inv(s) && s.queue == [] && FeasibleFrom(s, events)
    ensures var moves := Moves(s, events); var b := BooksOf(moves);
      && PostedInOrder(Told(b)) && Subsequence(Told(b), Changes(moves))
      && multiset(Changes(moves)) == Fates(b)
  {
    hide Moves, Changes, Told, Fates, Subsequence, PostedInOrder;
    var moves := Moves(s, events);
    BooksAreRight(s, events);
    ToldInOrder(moves);
    OrderIsKept(Told(BooksOf(moves)), Changes(moves));
    EachChangeHasOneFate(moves);
  }

  /** Every transition of a run is told exactly when every enqueue call had a notifier and found fewer than 256
      waiting, and every crash found an empty queue and cut off no visit between its store write and its
      enqueue call. */
  lemma ToldInFullExactlyWhen(s: Sys, events: seq<Event>)
    ensures var moves := Moves(s, events); Told(BooksOf(moves)) == Changes(moves) <==> AllHarmless(moves)
  {
    ToldExactlyWhen(Moves(s, events));
  }

  // Without crash.

  predicate IsCalm(moves: seq<Move>) { forall m | m in moves :: m.Sent? || m.Took? }

  lemma VisitIsCalm(s: Sys, env: Env, k: Key)
    ensures IsCalm(VisitMoves(s, env, k))
  {
    TakesTakeOnly(Amid(env, k));
  }

  lemma {:induction false} ScriptIsCalm(s: Sys, env: Env, script: seq<Act>)
    ensures IsCalm(ScriptMoves(s, env, script))
  {
    if script != [] {
      hide VisitMoves, TakesOf, Process;
      var front, last := script[..|script| - 1], script[|script| - 1];
      ScriptIsCalm(s, env, front);
      match last
      case Look(k) => VisitIsCalm(Process(s, env, front), env, k);
      case Side(e) => TakesTakeOnly([e]);
    }
  }

  lemma {:induction false} RunIsCalm(s: Sys, events: seq<Event>)
    requires NoCrash(events)
    ensures IsCalm(Moves(s, events))
  {
    if events != [] {
      hide ScriptMoves, TakesOf, RunFrom;
      var front, last := events[..|events| - 1], events[|events| - 1];
      assert last in events;
      RunIsCalm(s, front);
      match last {
        case Evaluate(env, script) => ScriptIsCalm(RunFrom(s, front), env, script);
        case Between(e) => TakesTakeOnly([e]);
      }
    }
  }

  lemma {:induction false} CalmBooks(moves: seq<Move>)
    requires IsCalm(moves)
    ensures Changes(moves) == PostsIn(moves) && BooksOf(moves).lost == [] && BooksOf(moves).cut == []
  {
    if moves != [] { CalmBooks(moves[..|moves| - 1]); }
  }

  /** Enqueue call `i` finds a notifier and room. */
  predicate MeetsRoom(moves: seq<Move>, i: nat)
    requires i < |moves| && moves[i].Sent?
  {
    HasRoom(BooksOf(moves[..i]), moves[i].notifier)
  }

  /** A process that does not crash posts every transition; what is taken and what waits are the posts in order less
      the dropped ones, and all of them exactly when no enqueue call met a full queue or a missing notifier. */
  lemma {:induction false} CrashFreeRunsTell(s: Sys, events: seq<Event>)
    requires Inv(s) && s.queue == [] && FeasibleFrom(s, events) && NoCrash(events)
    ensures var end, moves := RunFrom(s, events), Moves(s, events); var b := BooksOf(moves);
      && end.posts == s.posts + Changes(moves) && end.queue == Notes(b.waiting)
      && Subsequence(Told(b), Changes(moves)) && |Changes(moves)| == |Told(b)| + |b.dropped|
      && (Told(b) == Changes(moves) <==> forall i | 0 <= i < |moves| && moves[i].Sent? :: MeetsRoom(moves, i))
  {
    hide Moves, RunFrom, Changes, Told, Subsequence, BooksOf, FeasibleFrom, Inv;
    var moves := Moves(s, events);
    BooksAreRight(s, events);
    RunIsCalm(s, events);
    CalmBooks(moves);
    ToldInOrder(moves);
    MissingExactlyWhen(moves);
    ToldExactlyWhen(moves);
    forall i | 0 <= i < |moves| ensures Harmless(moves, i) <==> (moves[i].Sent? ==> MeetsRoom(moves, i)) {
      assert moves[i] in moves;
    }
  }
}
