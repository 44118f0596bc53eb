/** What becomes of notifications: the books of a bounded queue with one consumer, from which a crash may take
    everything. */
module Mailbox {
  import opened Common
  import opened AlertModel
  import opened AlertSafety

  /** A notification and the transition of an alert row it tells of. */
  datatype Mail = Mail(post: Post, note: Notification)

  /** An enqueue call; a transition whose enqueue call a crash cut off; the consumer at the queue; a crash. */
  datatype Move = Sent(mail: Mail, notifier: bool) | Cut(post: Post) | Took | Lost

  datatype Books = Books(waiting: seq<Mail>, taken: seq<Mail>, dropped: seq<Mail>, lost: seq<Mail>, cut: seq<Post>)

  /** The select in enqueue: a channel of 256, if there is anyone to notify at all. */
  predicate HasRoom(b: Books, notifier: bool) { notifier && |b.waiting| < QUEUE_CAPACITY }

  function Book(b: Books, m: Move): Books {
    match m
    case Sent(mail, notifier) =>
      if HasRoom(b, notifier) then b.(waiting := b.waiting + [mail]) else b.(dropped := b.dropped + [mail])
    case Cut(post) => b.(cut := b.cut + [post])
    case Took =>
      if b.waiting == [] then b else b.(waiting := b.waiting[1..], taken := b.taken + [b.waiting[0]])
    case Lost => b.(waiting := [], lost := b.lost + b.waiting)
  }

  function BooksOf(moves: seq<Move>): Books {
    if moves == [] then Books([], [], [], [], []) else Book(BooksOf(moves[..|moves| - 1]), moves[|moves| - 1])
  }

  function PostsOf(mails: seq<Mail>): seq<Post> {
    seq(|mails|, i requires 0 <= i < |mails| => mails[i].post)
  }

  function Notes(mails: seq<Mail>): seq<Notification> {
    seq(|mails|, i requires 0 <= i < |mails| => mails[i].note)
  }

  /** The enqueue calls. */
  function PostsIn(moves: seq<Move>): seq<Post> {
    if moves == [] then [] else
      var last := moves[|moves| - 1];
      PostsIn(moves[..|moves| - 1]) + if last.Sent? then [last.mail.post] else []
  }

  /** The transition a move makes, if any. */
  function ChangeIn(m: Move): seq<Post> {
    match m
    case Sent(mail, _) => [mail.post]
    case Cut(post) => [post]
    case _ => []
  }

  /** Every transition of a row, whether or not its enqueue call was reached. */
  function Changes(moves: seq<Move>): seq<Post> {
    if moves == [] then [] else Changes(moves[..|moves| - 1]) + ChangeIn(moves[|moves| - 1])
  }

  /** The transitions that were or still can be told. */
  function Told(b: Books): seq<Post> { PostsOf(b.taken) + PostsOf(b.waiting) }

  lemma PostsOfBoth(a: seq<Mail>, b: seq<Mail>)
    ensures PostsOf(a + b) == PostsOf(a) + PostsOf(b)
  {}

  // Every transition has exactly one fate.

  function Fates(b: Books): multiset<Post> {
    multiset(PostsOf(b.taken)) + multiset(PostsOf(b.waiting)) + multiset(PostsOf(b.dropped))
    + multiset(PostsOf(b.lost)) + multiset(b.cut)
  }

  lemma OneMail(mail: Mail)
    ensures PostsOf([mail]) == [mail.post] && PostsOf([]) == []
  {}

  lemma BookAddsFate(b: Books, m: Move)
    ensures Fates(Book(b, m)) == Fates(b) + multiset(ChangeIn(m))
  {
    hide PostsOf;
    match m {
      case Sent(mail, _) =>
        PostsOfBoth(b.waiting, [mail]);
        PostsOfBoth(b.dropped, [mail]);
        OneMail(mail);
      case Cut(post) =>
      case Took => if b.waiting != [] { TakingKeepsFates(b); }
      case Lost => LosingKeepsFates(b);
    }
  }

  lemma TakingKeepsFates(b: Books)
    requires b.waiting != []
    ensures Fates(Book(b, Took)) == Fates(b)
  {
    hide PostsOf;
    var first, rest := b.waiting[0], b.waiting[1..];
    PostsOfBoth(b.taken, [first]);
    PostsOfBoth([first], rest);
    assert b.waiting == [first] + rest;
  }

  lemma LosingKeepsFates(b: Books)
    ensures Fates(Book(b, Lost)) == Fates(b)
  {
    PostsOfBoth(b.lost, b.waiting);
    assert PostsOf([]) == [];
  }

  /** Each transition is told of, waits, was dropped, was lost with its queue, or was cut off: exactly one. */
  lemma {:induction false} EachChangeHasOneFate(moves: seq<Move>)
    ensures multiset(Changes(moves)) == Fates(BooksOf(moves))
  {
    if moves != [] {
      EachChangeHasOneFate(moves[..|moves| - 1]);
      BookAddsFate(BooksOf(moves[..|moves| - 1]), moves[|moves| - 1]);
    }
  }

  // Order.

  lemma {:induction false} OrderIsKept(a: seq<Post>, b: seq<Post>)
    requires Subsequence(a, b) && PostedInOrder(b)
    ensures PostedInOrder(a)
  {
    if a != [] {
      var front, last := b[..|b| - 1], b[|b| - 1];
      assert PostedInOrder(front);
      if Subsequence(a, front) {
        OrderIsKept(a, front);
      } else {
        var before := a[..|a| - 1];
        OrderIsKept(before, front);
        forall i | 0 <= i < |before|
          ensures before[i] != last
          ensures before[i].row == last.row ==> before[i].state.Firing? && last.state.Resolved?
        {
          ElementOfSubsequence(before, front, before[i]);
          var j :| 0 <= j < |front| && front[j] == before[i];
          assert b[j] == before[i];
        }
        assert forall i | 0 <= i < |before| :: a[i] == before[i];
      }
    }
  }

  lemma BookKeepsTold(b: Books, m: Move, changes: seq<Post>)
    requires Subsequence(Told(b), changes)
    ensures Subsequence(Told(Book(b, m)), changes + ChangeIn(m))
  {
    hide Subsequence;
    match m
    case Sent(mail, notifier) =>
      if HasRoom(b, notifier) {
        SubsequenceBoth(Told(b), changes, mail.post);
        PostsOfBoth(b.waiting, [mail]);
        assert Told(Book(b, m)) == Told(b) + [mail.post];
      } else {
        SubsequenceMore(Told(b), changes, mail.post);
      }
    case Cut(post) => SubsequenceMore(Told(b), changes, post);
    case Took =>
      assert changes + [] == changes;
      assert Told(Book(b, m)) == Told(b);
    case Lost =>
      assert changes + [] == changes;
      SubsequenceStart(PostsOf(b.taken), PostsOf(b.waiting), changes);
      assert PostsOf([]) == [] && PostsOf(b.taken) + [] == PostsOf(b.taken);
  }

  /** What is told is told in the order of the transitions. */
  lemma {:induction false} ToldInOrder(moves: seq<Move>)
    ensures Subsequence(Told(BooksOf(moves)), Changes(moves))
  {
    if moves == [] {
      assert Told(BooksOf(moves)) == [];
    } else {
      ToldInOrder(moves[..|moves| - 1]);
      BookKeepsTold(BooksOf(moves[..|moves| - 1]), moves[|moves| - 1], Changes(moves[..|moves| - 1]));
    }
  }

  // When nothing is lost.

  /** Move `i` costs no notification: an enqueue call finds room, a crash finds an empty queue and cuts off nothing. */
  predicate Harmless(moves: seq<Move>, i: nat)
    requires i < |moves|
  {
    match moves[i]
    case Sent(_, notifier) => HasRoom(BooksOf(moves[..i]), notifier)
    case Cut(_) => false
    case Took => true
    case Lost => BooksOf(moves[..i]).waiting == []
  }

  predicate AllHarmless(moves: seq<Move>) { forall i | 0 <= i < |moves| :: Harmless(moves, i) }

  function Missing(b: Books): nat { |b.dropped| + |b.lost| + |b.cut| }

  lemma AllHarmlessFront(moves: seq<Move>)
    requires moves != []
    ensures AllHarmless(moves) <==> AllHarmless(moves[..|moves| - 1]) && Harmless(moves, |moves| - 1)
  {
    var front := moves[..|moves| - 1];
    forall i | 0 <= i < |front| ensures Harmless(front, i) <==> Harmless(moves, i) {
      assert front[..i] == moves[..i] && front[i] == moves[i];
    }
  }

  lemma {:induction false} MissingExactlyWhen(moves: seq<Move>)
    ensures Missing(BooksOf(moves)) == 0 <==> AllHarmless(moves)
    ensures |Changes(moves)| == |Told(BooksOf(moves))| + Missing(BooksOf(moves))
  {
    if moves != [] {
      MissingExactlyWhen(moves[..|moves| - 1]);
      AllHarmlessFront(moves);
    }
  }

  /** Every transition is told, in order, exactly when no move was harmful. */
  lemma ToldExactlyWhen(moves: seq<Move>)
    ensures Told(BooksOf(moves)) == Changes(moves) <==> AllHarmless(moves)
  {
    MissingExactlyWhen(moves);
    ToldInOrder(moves);
    SubsequenceOfSameLength(Told(BooksOf(moves)), Changes(moves));
  }

  // Books of one list of moves after another.

  function Booked(b: Books, moves: seq<Move>): Books {
    if moves == [] then b else Book(Booked(b, moves[..|moves| - 1]), moves[|moves| - 1])
  }

  lemma {:induction false} BooksOfBoth(a: seq<Move>, b: seq<Move>)
    ensures BooksOf(a + b) == Booked(BooksOf(a), b)
  {
    hide Book;
    if b == [] {
      assert a + b == a;
    } else {
      BooksOfBoth(a, b[..|b| - 1]);
      assert (a + b)[..|a + b| - 1] == a + b[..|b| - 1];
    }
  }

  lemma {:induction false} ChangesOfBoth(a: seq<Move>, b: seq<Move>)
    ensures Changes(a + b) == Changes(a) + Changes(b) && PostsIn(a + b) == PostsIn(a) + PostsIn(b)
  {
    if b == [] {
      assert a + b == a;
    } else {
      hide ChangeIn, Changes, PostsIn;
      var front, last := b[..|b| - 1], b[|b| - 1];
      SplitLast(b);
      ChangesOfBoth(a, front);
      OneMoreMove(a + front, last);
      OneMoreMove(front, last);
      Regroup(a, front, [last]);
      Regroup(Changes(a), Changes(front), ChangeIn(last));
      Regroup(PostsIn(a), PostsIn(front), if last.Sent? then [last.mail.post] else []);
    }
  }

  lemma OneMoreMove(moves: seq<Move>, m: Move)
    ensures Changes(moves + [m]) == Changes(moves) + ChangeIn(m)
    ensures PostsIn(moves + [m]) == PostsIn(moves) + if m.Sent? then [m.mail.post] else []
  {
    assert (moves + [m])[..|moves|] == moves;
  }

  lemma {:induction false} BookedBoth(b: Books, x: seq<Move>, y: seq<Move>)
    ensures Booked(b, x + y) == Booked(Booked(b, x), y)
  {
    hide Book;
    if y == [] {
      assert x + y == x;
    } else {
      BookedBoth(b, x, y[..|y| - 1]);
      assert (x + y)[..|x + y| - 1] == x + y[..|y| - 1];
    }
  }
}
