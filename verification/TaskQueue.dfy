/**
 * The platform task queue: tasks with a target time, run when the clock is past it,
 * posted from any thread and also by tasks while they run; and the wake-up that is
 * arranged each time the queue's lock is given up.
 */
module TaskQueue {
  import opened Bytes

  datatype Option<T> = None | Some(value: T)

  datatype Task = Task(id: nat, target: uint64)

  /** A task run, and the clock it was run by. */
  datatype Ran = Ran(task: Task, at: uint64)

  /** A post and the clock it is scheduled by. */
  datatype Post = Post(task: Task, now: uint64)

  const UINT64_MAX: uint64 := 0xFFFF_FFFF_FFFF_FFFF
  const UINT16_MAX: uint64 := 0xFFFF
  const NS_PER_MS: nat := 1_000_000

  // ---------------------------------------------------------------- waking up

  /** What a schedule does: nothing, signal the event, or set the timer (0 disarms). */
  datatype Wake = Untouched | Signal | Timer(ms: int32)

  function ToInt64(n: uint64): int64 {
    ToSigned(n, UINT64_SPAN)
  }

  /** The conversion of a longer number to an int. */
  function ToInt(n: int): int32 {
    ToSigned(n % UINT32_SPAN, UINT32_SPAN)
  }

  /** Division as in C, toward zero. */
  function Quotient(a: int, b: nat): int
    requires b > 0
  {
    if a >= 0 then a / b else -((-a) / b)
  }

  function WakeFor(first: uint64, now: uint64): Wake {
    if first == UINT16_MAX then Untouched
    else if first <= now then Signal
    else Timer(ToInt(Quotient(ToInt64(first - now), NS_PER_MS) + 1))
  }

  /** The wake-up comes at once if the task is due, else strictly after its target and
      at most one millisecond late. */
  predicate Wakes(w: Wake, first: uint64, now: uint64) {
    match w
    case Untouched => false
    case Signal => first <= now
    case Timer(ms) => ms > 0 && first < now + ms * NS_PER_MS <= first + NS_PER_MS
  }

  predicate Manageable(first: uint64, now: uint64) {
    first != UINT16_MAX && (first <= now || (first - now) / NS_PER_MS + 1 <= INT_MAX)
  }

  /** What one schedule arranges wakes up in time exactly when the earliest target is not
      65535 (the code tests for the largest 16-bit number where it means the largest
      64-bit one) and the wait in milliseconds fits an int. */
  lemma WakesIff(first: uint64, now: uint64)
    ensures Wakes(WakeFor(first, now), first, now) <==> Manageable(first, now)
  {
    if first != UINT16_MAX && first > now {
      var diff := first - now;
      var ms := diff / NS_PER_MS + 1;
      var armed := ToInt(Quotient(ToInt64(diff), NS_PER_MS) + 1);
      OnlyMillisecond(diff, armed);
      assert Wakes(WakeFor(first, now), first, now) <==> armed > 0 && diff < armed * NS_PER_MS <= diff + NS_PER_MS;
      if ms <= INT_MAX {
        assert ToInt64(diff) == diff;
      }
    }
  }

  lemma OnlyMillisecond(diff: nat, ms: int)
    ensures diff < ms * NS_PER_MS <= diff + NS_PER_MS <==> ms == diff / NS_PER_MS + 1
  {
  }

  /** What can wake the queue: the event, pending or not, and when the timer expires, if
      it is armed. */
  datatype Alarm = Alarm(signalled: bool, timer: Option<int>)

  /** The timer expires just after the earliest target. */
  predicate TimerWakes(timer: Option<int>, first: uint64) {
    timer.Some? && first < timer.value <= first + NS_PER_MS
  }

  /** The earliest task will be looked at at once, or just after its target. */
  predicate Rings(a: Alarm, first: uint64) {
    a.signalled || TimerWakes(a.timer, first)
  }

  /** The event and the timer after a schedule. */
  function Arm(a: Alarm, first: uint64, now: uint64): Alarm {
    match WakeFor(first, now)
    case Untouched => a
    case Signal => Alarm(true, None)
    case Timer(ms) => a.(timer := if ms > 0 then Some(now + ms * NS_PER_MS) else None)
  }

  /** What a schedule leaves wakes the queue exactly if the event was pending, or the
      earliest target is one that can be woken for, or it is 65535 and the timer happens
      to have been set, for another task, to when it is needed. */
  predicate WokenBy(a: Alarm, first: uint64, now: uint64) {
    a.signalled || Manageable(first, now) || (first == UINT16_MAX && TimerWakes(a.timer, UINT16_MAX))
  }

  lemma ArmedRingsIff(a: Alarm, first: uint64, now: uint64)
    ensures Rings(Arm(a, first, now), first) <==> WokenBy(a, first, now)
  {
    hide ToInt, ToInt64, Quotient;
    WakesIff(first, now);
  }

  // ---------------------------------------------------------------- lists of tasks

  /** The target the schedule's loop finds. */
  function Earliest(tasks: seq<Task>): uint64 {
    if tasks == [] then UINT64_MAX
    else
      var rest := Earliest(tasks[1..]);
      if tasks[0].target < rest then tasks[0].target else rest
  }

  lemma {:induction false} EarliestIsLeast(tasks: seq<Task>)
    ensures forall t | t in tasks :: Earliest(tasks) <= t.target
    ensures tasks != [] ==> exists t :: t in tasks && t.target == Earliest(tasks)
  {
    if tasks != [] {
      EarliestIsLeast(tasks[1..]);
      assert tasks == [tasks[0]] + tasks[1..];
      if Earliest(tasks) == tasks[0].target {
        assert tasks[0] in tasks;
      } else {
        var t :| t in tasks[1..] && t.target == Earliest(tasks[1..]);
        assert t in tasks;
      }
    }
  }

  predicate IsDue(t: Task, now: uint64) { now > t.target }

  function Due(tasks: seq<Task>, now: uint64): seq<Task> {
    if tasks == [] then []
    else (if IsDue(tasks[0], now) then [tasks[0]] else []) + Due(tasks[1..], now)
  }

  function Kept(tasks: seq<Task>, now: uint64): seq<Task> {
    if tasks == [] then []
    else (if IsDue(tasks[0], now) then [] else [tasks[0]]) + Kept(tasks[1..], now)
  }

  function Reversed<T>(s: seq<T>): seq<T> {
    if s == [] then [] else Reversed(s[1..]) + [s[0]]
  }

  lemma {:induction false} ReversedElements<T>(s: seq<T>)
    ensures multiset(Reversed(s)) == multiset(s)
  {
    if s != [] {
      ReversedElements(s[1..]);
      assert s == [s[0]] + s[1..];
    }
  }

  lemma {:induction false} DueOrKept(tasks: seq<Task>, now: uint64)
    ensures multiset(Due(tasks, now)) + multiset(Kept(tasks, now)) == multiset(tasks)
    ensures forall t | t in Due(tasks, now) :: IsDue(t, now)
    ensures forall t | t in Kept(tasks, now) :: !IsDue(t, now)
  {
    if tasks != [] {
      DueOrKept(tasks[1..], now);
      assert tasks == [tasks[0]] + tasks[1..];
    }
  }

  /** When the timer set for the earliest task expires, that task is due. */
  lemma TimerFindsWork(tasks: seq<Task>, now: uint64, ms: nat, later: uint64)
    requires tasks != [] && ms <= INT_MAX && Wakes(Timer(ms), Earliest(tasks), now) && later >= now + ms * NS_PER_MS
    ensures Due(tasks, later) != []
  {
    EarliestIsLeast(tasks);
    var t :| t in tasks && t.target == Earliest(tasks);
    DueOrKept(tasks, later);
    assert t in multiset(tasks);
    assert t !in Kept(tasks, later);
    assert t in multiset(Due(tasks, later));
  }

  // ---------------------------------------------------------------- posts and runs

  /** The posts made while the first n due tasks run: those of one task after those of
      the one before. Tasks beyond the list post nothing. */
  function PostsOf(posts: seq<seq<Post>>, n: nat): seq<Post> {
    if n == 0 || posts == [] then [] else posts[0] + PostsOf(posts[1..], n - 1)
  }

  /** A queue after posts, the latest first. */
  function Pushed(queue: seq<Task>, posts: seq<Post>): seq<Task>
    decreases |posts|
  {
    if posts == [] then queue else Pushed([posts[0].task] + queue, posts[1..])
  }

  /** The event and the timer after posts, each of which schedules. */
  function ArmedBy(queue: seq<Task>, posts: seq<Post>, a: Alarm): Alarm
    decreases |posts|
  {
    if posts == [] then a
    else
      var next := [posts[0].task] + queue;
      ArmedBy(next, posts[1..], Arm(a, Earliest(next), posts[0].now))
  }

  function PostedTasks(posts: seq<Post>): multiset<Task> {
    if posts == [] then multiset{} else multiset{posts[0].task} + PostedTasks(posts[1..])
  }

  function Stamped(tasks: seq<Task>, now: uint64): seq<Ran> {
    if tasks == [] then [] else [Ran(tasks[0], now)] + Stamped(tasks[1..], now)
  }

  function RanTasks(ran: seq<Ran>): multiset<Task> {
    if ran == [] then multiset{} else multiset{ran[0].task} + RanTasks(ran[1..])
  }

  predicate AllOnTime(ran: seq<Ran>) {
    ran == [] || (ran[0].at > ran[0].task.target && AllOnTime(ran[1..]))
  }

  lemma {:induction false} PushedSplit(queue: seq<Task>, a: seq<Post>, b: seq<Post>)
    ensures Pushed(queue, a + b) == Pushed(Pushed(queue, a), b)
    decreases |a|
  {
    if a == [] {
      assert a + b == b;
    } else {
      assert (a + b)[1..] == a[1..] + b;
      PushedSplit([a[0].task] + queue, a[1..], b);
    }
  }

  lemma {:induction false} ArmedSplit(queue: seq<Task>, a: seq<Post>, b: seq<Post>, bell: Alarm)
    ensures ArmedBy(queue, a + b, bell) == ArmedBy(Pushed(queue, a), b, ArmedBy(queue, a, bell))
    decreases |a|
  {
    hide Arm, Earliest;
    if a == [] {
      assert a + b == b;
    } else {
      var next := [a[0].task] + queue;
      assert (a + b)[1..] == a[1..] + b;
      ArmedSplit(next, a[1..], b, Arm(bell, Earliest(next), a[0].now));
    }
  }

  lemma {:induction false} PushedElements(queue: seq<Task>, posts: seq<Post>)
    ensures multiset(Pushed(queue, posts)) == PostedTasks(posts) + multiset(queue)
    decreases |posts|
  {
    if posts != [] { PushedElements([posts[0].task] + queue, posts[1..]); }
  }

  lemma {:induction false} PostedSplit(a: seq<Post>, b: seq<Post>)
    ensures PostedTasks(a + b) == PostedTasks(a) + PostedTasks(b)
  {
    if a == [] {
      assert a + b == b;
    } else {
      assert (a + b)[1..] == a[1..] + b;
      PostedSplit(a[1..], b);
    }
  }

  lemma {:induction false} RanSplit(a: seq<Ran>, b: seq<Ran>)
    ensures RanTasks(a + b) == RanTasks(a) + RanTasks(b)
    ensures AllOnTime(a + b) <==> AllOnTime(a) && AllOnTime(b)
  {
    if a == [] {
      assert a + b == b;
    } else {
      assert (a + b)[1..] == a[1..] + b;
      RanSplit(a[1..], b);
    }
  }

  lemma {:induction false} StampedAgrees(tasks: seq<Task>, now: uint64)
    ensures RanTasks(Stamped(tasks, now)) == multiset(tasks)
    ensures (forall t | t in tasks :: IsDue(t, now)) ==> AllOnTime(Stamped(tasks, now))
  {
    if tasks != [] {
      StampedAgrees(tasks[1..], now);
      assert Stamped(tasks, now)[1..] == Stamped(tasks[1..], now);
      assert tasks[0] in tasks;
      assert tasks == [tasks[0]] + tasks[1..];
    }
  }

  lemma DueStep(head: seq<Task>, now: uint64)
    requires head != []
    ensures var rest := head[1..];
      if now > head[0].target then
        && Due(head, now) == [head[0]] + Due(rest, now) && Kept(head, now) == Kept(rest, now)
        && Stamped(Due(head, now), now) == [Ran(head[0], now)] + Stamped(Due(rest, now), now)
      else
        && Due(head, now) == Due(rest, now)
        && Reversed(Kept(head, now)) == Reversed(Kept(rest, now)) + [head[0]]
  {
    if now > head[0].target {
      assert Due(head, now)[1..] == Due(head[1..], now);
    } else {
      assert Kept(head, now)[1..] == Kept(head[1..], now);
    }
  }

  /** The posts of one task, and those of the tasks after it. */
  function First(posts: seq<seq<Post>>): seq<Post> { if posts == [] then [] else posts[0] }

  function Later(posts: seq<seq<Post>>): seq<seq<Post>> { if posts == [] then [] else posts[1..] }

  lemma PostStep(queue: seq<Task>, posts: seq<seq<Post>>, n: nat, bell: Alarm)
    requires n > 0
    ensures Pushed(queue, PostsOf(posts, n)) == Pushed(Pushed(queue, First(posts)), PostsOf(Later(posts), n - 1))
    ensures PostedTasks(PostsOf(posts, n)) == PostedTasks(First(posts)) + PostedTasks(PostsOf(Later(posts), n - 1))
    ensures ArmedBy(queue, PostsOf(posts, n), bell) ==
      ArmedBy(Pushed(queue, First(posts)), PostsOf(Later(posts), n - 1), ArmedBy(queue, First(posts), bell))
  {
    hide ArmedBy, Pushed, PostedTasks;
    PushedSplit(queue, First(posts), PostsOf(Later(posts), n - 1));
    ArmedSplit(queue, First(posts), PostsOf(Later(posts), n - 1), bell);
    PostedSplit(First(posts), PostsOf(Later(posts), n - 1));
    assert PostsOf(posts, n) == First(posts) + PostsOf(Later(posts), n - 1);
  }

  /** What a pass over the queue comes to: the runs, the tasks kept, the posts, the alarm. */
  datatype Pass = Pass(ran: seq<Ran>, kept: seq<Task>, queue: seq<Task>, posted: multiset<Task>, alarm: Alarm)

  /** ... when the tasks of head are still to be looked at. */
  function Rest(head: seq<Task>, now: uint64, posts: seq<seq<Post>>, done: Pass): Pass {
    var mine := PostsOf(posts, |Due(head, now)|);
    Pass(done.ran + Stamped(Due(head, now), now), Reversed(Kept(head, now)) + done.kept,
         Pushed(done.queue, mine), PostedTasks(mine) + done.posted, ArmedBy(done.queue, mine, done.alarm))
  }

  /** ... when the first of them was run. */
  function WithRun(done: Pass, task: Task, now: uint64, posts: seq<Post>): Pass {
    Pass(done.ran + [Ran(task, now)], done.kept, Pushed(done.queue, posts), PostedTasks(posts) + done.posted,
         ArmedBy(done.queue, posts, done.alarm))
  }

  lemma RestAfterRun(head: seq<Task>, now: uint64, posts: seq<seq<Post>>, done: Pass)
    requires head != [] && now > head[0].target
    ensures Rest(head, now, posts, done) ==
      Rest(head[1..], now, Later(posts), WithRun(done, head[0], now, First(posts)))
  {
    hide Due, Kept, Stamped, Reversed, Pushed, PostsOf, PostedTasks, ArmedBy, First, Later;
    DueStep(head, now);
    PostStep(done.queue, posts, |Due(head, now)|, done.alarm);
  }

  lemma RestAfterKeep(head: seq<Task>, now: uint64, posts: seq<seq<Post>>, done: Pass)
    requires head != [] && now <= head[0].target
    ensures Rest(head, now, posts, done) == Rest(head[1..], now, posts, done.(kept := [head[0]] + done.kept))
  {
    hide Due, Kept, Stamped, Reversed, Pushed, PostsOf, PostedTasks, ArmedBy;
    DueStep(head, now);
  }

  lemma RestOfNothing(now: uint64, posts: seq<seq<Post>>, done: Pass)
    ensures Rest([], now, posts, done) == done
  {
    assert Due([], now) == [] && Kept([], now) == [];
    assert multiset{} + done.posted == done.posted;
  }

  // ---------------------------------------------------------------- the queue as a value

  datatype State = State(queue: seq<Task>, alarm: Alarm, posted: multiset<Task>, ran: seq<Ran>)

  function Posted(s: State, p: Post): State {
    var next := [p.task] + s.queue;
    State(next, Arm(s.alarm, Earliest(next), p.now), multiset{p.task} + s.posted, s.ran)
  }

  /** The posts of the tasks that are due. */
  function PostsMeanwhile(s: State, now: uint64, posts: seq<seq<Post>>): seq<Post> {
    PostsOf(posts, |Due(s.queue, now)|)
  }

  function Processed(s: State, now: uint64, posts: seq<seq<Post>>, end: uint64): State {
    var mine := PostsMeanwhile(s, now, posts);
    var next := Reversed(Kept(s.queue, now)) + Pushed([], mine);
    State(next, Arm(ArmedBy([], mine, s.alarm), Earliest(next), end), PostedTasks(mine) + s.posted,
          s.ran + Stamped(Due(s.queue, now), now))
  }

  lemma RestIsProcessed(s: State, now: uint64, posts: seq<seq<Post>>, end: uint64)
    ensures
      var all := Rest(s.queue, now, posts, Pass(s.ran, [], [], s.posted, s.alarm));
      var next := all.kept + all.queue;
      && Processed(s, now, posts, end) == State(next, Arm(all.alarm, Earliest(next), end), all.posted, all.ran)
      && all.alarm == ArmedBy([], PostsMeanwhile(s, now, posts), s.alarm)
  {
    hide Due, Kept, Stamped, Reversed, Pushed, PostsOf, PostedTasks, ArmedBy, Arm, Earliest;
    assert Reversed(Kept(s.queue, now)) + [] == Reversed(Kept(s.queue, now));
  }

  /** Every task posted is either still queued or was run once, past its target. */
  predicate Sound(s: State) {
    s.posted == multiset(s.queue) + RanTasks(s.ran) && AllOnTime(s.ran)
  }

  lemma PostConserves(s: State, p: Post)
    requires Sound(s)
    ensures Sound(Posted(s, p))
  {
    hide Arm, Earliest;
  }

  /** One pass over the queue neither loses nor repeats a task, and runs none early. */
  lemma PassConserves(s: State, now: uint64, posts: seq<seq<Post>>, end: uint64)
    requires Sound(s)
    ensures Sound(Processed(s, now, posts, end))
  {
    hide Arm, Earliest, ArmedBy, Pushed, PostsOf, PostedTasks, Reversed, Stamped, Due, Kept, RanTasks, AllOnTime;
    DueOrKept(s.queue, now);
    ReversedElements(Kept(s.queue, now));
    PushedElements([], PostsMeanwhile(s, now, posts));
    RanSplit(s.ran, Stamped(Due(s.queue, now), now));
    StampedAgrees(Due(s.queue, now), now);
  }

  datatype Action =
    | DoPost(p: Post)
    | DoNotified(now: uint64, posts: seq<seq<Post>>, end: uint64)
    | DoExpired(now: uint64, posts: seq<seq<Post>>, end: uint64)

  /** A post, the event loop seeing the event, or the timer expiring. */
  function Step(s: State, a: Action): State {
    match a
    case DoPost(p) => Posted(s, p)
    case DoNotified(now, posts, end) => Processed(s.(alarm := s.alarm.(signalled := false)), now, posts, end)
    case DoExpired(now, posts, end) => Processed(s.(alarm := s.alarm.(timer := None)), now, posts, end)
  }

  function After(s: State, actions: seq<Action>): State
    decreases |actions|
  {
    if actions == [] then s else After(Step(s, actions[0]), actions[1..])
  }

  function LastClock(a: Action): uint64 {
    match a case DoPost(p) => p.now case DoNotified(_, _, end) => end case DoExpired(_, _, end) => end
  }

  /** The alarm that the last schedule of an action finds. */
  function Found(s: State, a: Action): Alarm {
    match a
    case DoPost(_) => s.alarm
    case DoNotified(now, posts, _) => ArmedBy([], PostsMeanwhile(s, now, posts), s.alarm.(signalled := false))
    case DoExpired(now, posts, _) => ArmedBy([], PostsMeanwhile(s, now, posts), s.alarm.(timer := None))
  }

  /** The tasks posted from outside, not by other tasks. */
  function Direct(actions: seq<Action>): multiset<Task> {
    if actions == [] then multiset{}
    else (match actions[0] case DoPost(p) => multiset{p.task} case _ => multiset{}) + Direct(actions[1..])
  }

  lemma StepConserves(s: State, a: Action)
    requires Sound(s)
    ensures var t := Step(s, a);
      Sound(t) && s.ran <= t.ran && s.posted + Direct([a]) <= t.posted
  {
    hide Arm, Earliest, ArmedBy, Pushed, PostsOf, PostedTasks, Reversed, Stamped, Due, Kept, RanTasks, AllOnTime;
    assert [a][1..] == [];
    match a {
      case DoPost(p) => PostConserves(s, p);
      case DoNotified(now, posts, end) => PassConserves(s.(alarm := s.alarm.(signalled := false)), now, posts, end);
      case DoExpired(now, posts, end) => PassConserves(s.(alarm := s.alarm.(timer := None)), now, posts, end);
    }
  }

  /** Over any run of posts and wake-ups nothing is lost, repeated or early, no run is
      taken back, and every task that was posted counts. */
  lemma {:induction false} RunsConserve(s: State, actions: seq<Action>)
    requires Sound(s)
    ensures var t := After(s, actions);
      Sound(t) && s.ran <= t.ran && s.posted + Direct(actions) <= t.posted
    decreases |actions|
  {
    hide Step, Sound;
    if actions != [] {
      StepConserves(s, actions[0]);
      RunsConserve(Step(s, actions[0]), actions[1..]);
      assert [actions[0]][1..] == [];
    }
  }

  /** After every action of a run the queue is woken exactly if the alarm its last schedule
      found was signalled, or its earliest task is one that can be woken for, or that is
      for time 65535 and a timer left over is set to just after it. */
  lemma {:induction false} RunsWakeIff(s: State, actions: seq<Action>, a: Action)
    ensures var t := After(s, actions + [a]);
      Rings(t.alarm, Earliest(t.queue)) <==>
        WokenBy(Found(After(s, actions), a), Earliest(t.queue), LastClock(a))
    decreases |actions|
  {
    hide Arm, Rings, WokenBy, Earliest;
    if actions == [] {
      assert actions + [a] == [a] && [a][1..] == [];
      ArmedRingsIff(Found(s, a), Earliest(Step(s, a).queue), LastClock(a));
    } else {
      assert (actions + [a])[1..] == actions[1..] + [a];
      RunsWakeIff(Step(s, actions[0]), actions[1..], a);
    }
  }

  // ---------------------------------------------------------------- the queue

  class Queue {
    var queue: seq<Task>
    var signalled: bool              // the event is pending
    var timer: Option<int>           // when the timer expires, if it is armed
    ghost var posted: multiset<Task>
    ghost var ran: seq<Ran>

    constructor ()
      ensures Valid() && queue == [] && ran == [] && posted == multiset{}
      ensures !signalled && timer == None
    {
      queue, signalled, timer := [], false, None;
      posted, ran := multiset{}, [];
    }

    ghost function View(): State
      reads this
    {
      State(queue, Alarm(signalled, timer), posted, ran)
    }

    ghost predicate Valid()
      reads this
    {
      Sound(View())
    }

    ghost predicate Woken()
      reads this
    {
      Rings(View().alarm, Earliest(queue))
    }

    method Schedule(now: uint64)
      modifies this`signalled, this`timer
      ensures View() == old(View()).(alarm := Arm(old(View()).alarm, Earliest(queue), now))
      ensures Woken() <==> || old(signalled)
                           || Manageable(Earliest(queue), now)
                           || (Earliest(queue) == UINT16_MAX && old(Woken()))
    {
      var first: uint64 := UINT64_MAX;
      var next := queue;
      while next != []
        invariant Earliest(queue) == if first < Earliest(next) then first else Earliest(next)
        decreases |next|
      {
        if first > next[0].target { first := next[0].target; }
        next := next[1..];
      }
      ArmedRingsIff(View().alarm, first, now);
      if first != UINT16_MAX {
        if first <= now {
          signalled := true;
          timer := None;
        } else {
          var diff := ToInt64(first - now);
          var ms := ToInt(Quotient(diff, NS_PER_MS) + 1);
          timer := if ms > 0 then Some(now + ms * NS_PER_MS) else None;
        }
      }
    }

    /** What posting does, here also to a queue that is being processed. */
    method Enqueue(p: Post)
      modifies this`queue, this`signalled, this`timer, this`posted
      ensures View() == Posted(old(View()), p)
      ensures Woken() <==> WokenBy(old(View()).alarm, Earliest(queue), p.now)
    {
      hide Arm, Earliest;
      ArmedRingsIff(View().alarm, Earliest([p.task] + queue), p.now);
      queue := [p.task] + queue;
      posted := multiset{p.task} + posted;
      Schedule(p.now);
    }

    method PostTask(p: Post)
      requires Valid()
      modifies this`queue, this`signalled, this`timer, this`posted
      ensures Valid() && queue == [p.task] + old(queue) && posted == multiset{p.task} + old(posted)
      ensures View() == Posted(old(View()), p)
      ensures Woken() <==> || old(signalled)
                           || Manageable(Earliest(queue), p.now)
                           || (Earliest(queue) == UINT16_MAX && TimerWakes(old(timer), UINT16_MAX))
    {
      PostConserves(View(), p);
      Enqueue(p);
    }

    /** Runs a task, which posts others meanwhile. */
    method RunTask(task: Task, now: uint64, posts: seq<Post>)
      modifies this
      ensures forall kept ::
        Pass(ran, kept, queue, posted, View().alarm) ==
          WithRun(Pass(old(ran), kept, old(queue), old(posted), old(View()).alarm), task, now, posts)
    {
      hide Arm, Earliest;
      ran := ran + [Ran(task, now)];
      var i := 0;
      assert posts[0..] == posts;
      while i < |posts|
        invariant i <= |posts| && ran == old(ran) + [Ran(task, now)]
        invariant Pushed(queue, posts[i..]) == Pushed(old(queue), posts)
        invariant PostedTasks(posts[i..]) + posted == PostedTasks(posts) + old(posted)
        invariant ArmedBy(queue, posts[i..], View().alarm) == ArmedBy(old(queue), posts, old(View()).alarm)
      {
        Enqueue(posts[i]);
        assert posts[i..][1..] == posts[i + 1..];
        i := i + 1;
      }
    }

    /** Runs the tasks of a list that are due, and gives back the others, last first. */
    method Sweep(tasks: seq<Task>, now: uint64, posts: seq<seq<Post>>) returns (kept: seq<Task>)
      modifies this
      ensures Pass(ran, kept, queue, posted, View().alarm) ==
        Rest(tasks, now, posts, Pass(old(ran), [], old(queue), old(posted), old(View()).alarm))
    {
      hide Rest, WithRun, First, Later;
      ghost var all := Rest(tasks, now, posts, Pass(ran, [], queue, posted, View().alarm));
      var head, left := tasks, posts;
      kept := [];
      while head != []
        invariant Rest(head, now, left, Pass(ran, kept, queue, posted, View().alarm)) == all
        decreases |head|
      {
        var curr := head[0];
        if now > curr.target {
          RestAfterRun(head, now, left, Pass(ran, kept, queue, posted, View().alarm));
          RunTask(curr, now, First(left));
          left := Later(left);
        } else {
          RestAfterKeep(head, now, left, Pass(ran, kept, queue, posted, View().alarm));
          kept := [curr] + kept;
        }
        head := head[1..];
      }
      RestOfNothing(now, left, Pass(ran, kept, queue, posted, View().alarm));
    }

    /** Runs the tasks that are due by the clock, in the order of the queue; the others
        go back in front of whatever was posted meanwhile. */
    method Process(now: uint64, posts: seq<seq<Post>>, end: uint64)
      requires Valid()
      modifies this
      ensures Valid() && View() == Processed(old(View()), now, posts, end)
      ensures ran == old(ran) + Stamped(Due(old(queue), now), now)
      ensures queue == Reversed(Kept(old(queue), now)) + Pushed([], PostsMeanwhile(old(View()), now, posts))
      ensures posted == PostedTasks(PostsMeanwhile(old(View()), now, posts)) + old(posted)
      ensures Woken() <==>
        WokenBy(ArmedBy([], PostsMeanwhile(old(View()), now, posts), old(View()).alarm), Earliest(queue), end)
    {
      hide Earliest, Arm, ArmedBy, Rest, Due, Kept, Stamped, Pushed, PostsOf, PostedTasks, Sound, Reversed,
        PostsMeanwhile;
      ghost var was := View();
      RestIsProcessed(was, now, posts, end);
      PassConserves(was, now, posts, end);
      var head := queue;
      queue := [];
      var kept := Sweep(head, now, posts);
      assert kept == [] ==> kept + queue == queue;
      if kept != [] { queue := kept + queue; }
      ArmedRingsIff(View().alarm, Earliest(queue), end);
      Schedule(end);
    }

    /** The event loop saw the event. */
    method Notified(now: uint64, posts: seq<seq<Post>>, end: uint64)
      requires Valid()
      modifies this
      ensures Valid() && View() == Step(old(View()), DoNotified(now, posts, end))
      ensures ran == old(ran) + Stamped(Due(old(queue), now), now)
      ensures posted == PostedTasks(PostsMeanwhile(old(View()), now, posts)) + old(posted)
      ensures Woken() <==> WokenBy(Found(old(View()), DoNotified(now, posts, end)), Earliest(queue), end)
    {
      signalled := false;
      Process(now, posts, end);
    }

    /** The timer expired. If it was set for the earliest task, that task runs. */
    method Expired(now: uint64, posts: seq<seq<Post>>, end: uint64)
      requires Valid()
      modifies this
      ensures Valid() && View() == Step(old(View()), DoExpired(now, posts, end))
      ensures ran == old(ran) + Stamped(Due(old(queue), now), now)
      ensures posted == PostedTasks(PostsMeanwhile(old(View()), now, posts)) + old(posted)
      ensures Woken() <==> WokenBy(Found(old(View()), DoExpired(now, posts, end)), Earliest(queue), end)
    {
      timer := None;
      Process(now, posts, end);
    }
  }

  /** A run of posts and wake-ups ends where its steps lead: nothing is lost, repeated or
      early, every task posted from outside is accounted for, and if the earliest task is
      one that can be woken for, the queue is woken. */
  method RunAll(q: Queue, actions: seq<Action>)
    requires q.Valid()
    modifies q
    ensures q.Valid() && q.View() == After(old(q.View()), actions)
    ensures old(q.ran) <= q.ran && old(q.posted) + Direct(actions) <= q.posted
    ensures actions != [] ==>
      var last := |actions| - 1;
      q.Woken() <==>
        WokenBy(Found(After(old(q.View()), actions[..last]), actions[last]), Earliest(q.queue),
          LastClock(actions[last]))
  {
    hide Earliest, Step, Posted, WokenBy, Sound;
    RunsConserve(q.View(), actions);
    if actions != [] {
      var last := |actions| - 1;
      assert actions[..last] + [actions[last]] == actions;
      RunsWakeIff(q.View(), actions[..last], actions[last]);
    }
    ghost var was := q.View();
    assert actions[0..] == actions;
    var i := 0;
    while i < |actions|
      invariant i <= |actions| && q.Valid()
      invariant After(q.View(), actions[i..]) == After(was, actions)
    {
      assert actions[i..][1..] == actions[i + 1..];
      Do(q, actions[i]);
      i := i + 1;
    }
  }

  method Do(q: Queue, a: Action)
    requires q.Valid()
    modifies q
    ensures q.Valid() && q.View() == Step(old(q.View()), a)
  {
    hide Earliest, Arm, Sound, Processed;
    match a {
      case DoPost(p) => q.PostTask(p);
      case DoNotified(now, posts, end) => q.Notified(now, posts, end);
      case DoExpired(now, posts, end) => q.Expired(now, posts, end);
    }
  }

  /** A task for time 65535, posted to an empty queue at time 0, waits forever: no event
      is pending and no timer is armed. */
  method PostedButNeverWoken() returns (q: Queue)
    ensures fresh(q) && q.Valid() && q.queue != [] && !q.signalled && q.timer == None
  {
    q := new Queue();
    q.PostTask(Post(Task(0, UINT16_MAX), 0));
    assert q.queue == [Task(0, UINT16_MAX)];
    assert Earliest(q.queue) == UINT16_MAX;
  }

  /** After a task for time 70000 it does not: the timer set for that one comes in time. */
  method WokenByLeftoverTimer() returns (q: Queue)
    ensures fresh(q) && q.Valid() && !q.signalled
    ensures Earliest(q.queue) == UINT16_MAX && !Manageable(Earliest(q.queue), 0) && q.Woken()
  {
    q := new Queue();
    q.PostTask(Post(Task(0, 70_000), 0));
    assert q.queue == [Task(0, 70_000)];
    assert Earliest(q.queue) == 70_000;
    assert WakeFor(70_000, 0) == Timer(1);
    q.PostTask(Post(Task(1, UINT16_MAX), 0));
    assert q.queue[1..] == [Task(0, 70_000)];
    assert Earliest(q.queue) == UINT16_MAX;
  }
}
