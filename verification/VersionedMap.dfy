/** What users of a collection are meant to see: a plain versioned map.  Commits hold whole
    states and what the history shows of them; HEAD and the branches name commits; each
    client has staged changes of its own.  No trees, journals, pointers or counters. */
module VersionedMap {
  import opened Basics
  import opened History
  import opened CommitStore
  import opened LensSteps

  datatype Point = Point(parent: Option<Bytes>, second: Option<Bytes>, state: State, note: Note, kind: Kind)

  datatype World = World(commits: map<Bytes, Point>, head: Option<Bytes>, branches: map<string, Bytes>)

  /** A client: staged additions and deletions, the number of its next commit, and the
      branch that follows its commits. */
  datatype Client = Client(plus: State, minus: set<Bytes>, index: nat, branch: Option<string>)

  /** The commit that an operation names.  A script may also say "what an earlier event
      answered"; the events of a run then hold that commit. */
  datatype Target =
    | Nothing | CurrentHead | TipOf(branch: string) | Known(commit: Bytes) | AnswerOf(event: nat)

  datatype Op =
    | Stage(key: Bytes, hash: Bytes)
    | StageDelete(key: Bytes)
    | Commit(message: Bytes, timestamp: Bytes)
    | Branch(name: string)
    | Checkout(name: string)
    | Undo(steps: int)
    | Merge(name: string, message: Bytes, timestamp: Bytes)
    | MergeOnto(parent: Target, second: Target, message: Bytes, timestamp: Bytes)
    | Lookup(key: Bytes)
    | ReadAll
    | ReadAt(target: Target)
    | History(limit: int)

  datatype Answer =
    | Done | Failed | Moved(commit: Bytes) | Found(value: Option<Bytes>) | Contents(state: State)
    | Lines(log: seq<LogEntry>)

  function StateOf(w: World, h: Option<Bytes>): State {
    if h.Some? && h.value in w.commits then w.commits[h.value].state else map[]
  }

  function CommitOf(w: World, t: Target): Option<Bytes> {
    match t
    case Nothing => None
    case CurrentHead => w.head
    case TipOf(b) => if b in w.branches then Some(w.branches[b]) else None
    case Known(h) => if h in w.commits then Some(h) else None
    case AnswerOf(_) => None
  }

  /** The `n`-th first parent, stopping at the root. */
  function Back(commits: map<Bytes, Point>, h: Bytes, n: nat): Bytes
    decreases n
  {
    if n == 0 || h !in commits || commits[h].parent.None? then h
    else Back(commits, commits[h].parent.value, n - 1)
  }

  function Line(h: Bytes, p: Point): LogEntry {
    LogEntry(Short(h), p.note, p.kind, ShortSecond(p.second))
  }

  /** The lines of `h` and its first parents, newest first, at most `n` of them. */
  function Log(commits: map<Bytes, Point>, h: Option<Bytes>, n: nat): seq<LogEntry>
    decreases n
  {
    if n == 0 || h.None? || h.value !in commits then []
    else [Line(h.value, commits[h.value])] + Log(commits, commits[h.value].parent, n - 1)
  }

  lemma {:induction false} LogAt(commits: map<Bytes, Point>, h: Bytes, n: nat, i: nat)
    requires i < |Log(commits, Some(h), n)|
    ensures var a := Back(commits, h, i); a in commits && Log(commits, Some(h), n)[i] == Line(a, commits[a])
    decreases n
  {
    if i > 0 { LogAt(commits, commits[h].parent.value, n - 1, i - 1); }
  }

  predicate HasStaged(c: Client) {
    c.plus != map[] || c.minus != {}
  }

  /** `h` becomes HEAD, standing for `p`; `branch` follows. */
  function Publish(w: World, h: Bytes, p: Point, branch: Option<string>): World {
    World(w.commits[h := p], Some(h), if branch.Some? then w.branches[branch.value := h] else w.branches)
  }

  /** No commit is replaced by a different one. */
  predicate Adds(w: World, h: Bytes, p: Point) {
    h in w.commits ==> w.commits[h] == p
  }

  /** HEAD moves to an existing commit; staging is dropped. */
  predicate Rewound(w: World, c: Client, h: Bytes, branch: Option<string>, w': World, c': Client) {
    && h in w.commits && w' == w.(head := Some(h))
    && c' == Client(map[], {}, w.commits[h].note.index + 1, branch)
  }

  /** One operation of one client, with the answer it gets. */
  predicate Step(w: World, c: Client, op: Op, answer: Answer, w': World, c': Client) {
    match op
    case Stage(key, hash) =>
      answer == Done && w' == w && c' == c.(plus := c.plus[key := hash], minus := c.minus - {key})
    case StageDelete(key) =>
      answer == Done && w' == w && c' == c.(plus := c.plus - {key}, minus := c.minus + {key})
    case Commit(message, timestamp) =>
      var s := Apply(StateOf(w, w.head), c.plus, c.minus);
      (match answer
       case Moved(h) =>
         && HasStaged(c) && h in w'.commits
         && var p := Point(w.head, None, s, Note(message, timestamp, c.index), w'.commits[h].kind);
         && p.kind != MergeCommit && (w.head.None? ==> p.kind == SnapshotCommit)
         && Adds(w, h, p) && w' == Publish(w, h, p, c.branch)
         && c' == Client(map[], {}, c.index + 1, c.branch)
       case Failed => w' == w && c' == c
                      && (HasStaged(c) ==> !SnapshotFits(s, message, c.index) || !DeltaFits(c.plus, c.minus))
       case _ => false)
    case Branch(b) =>
      && c' == c && (answer == Done || answer == Failed) && (answer == Done <==> w.head.Some?)
      && w' == if w.head.Some? then w.(branches := w.branches[b := w.head.value]) else w
    case Checkout(b) =>
      if b in w.branches then answer == Done && Rewound(w, c, w.branches[b], Some(b), w', c')
      else answer == Failed && w' == w && c' == c
    case Undo(n) =>
      if w.head.Some? then
        var h := Back(w.commits, w.head.value, if n > 0 then n else 0);
        answer == Moved(h) && Rewound(w, c, h, None, w', c')
      else answer == Failed && w' == w && c' == c
    case Merge(b, message, timestamp) =>
      if b in w.branches && SnapshotFits(StateOf(w, w.head) + StateOf(w, Some(w.branches[b])), message, c.index) then
        var p := Point(w.head, Some(w.branches[b]), StateOf(w, w.head) + StateOf(w, Some(w.branches[b])),
                       Note(message, timestamp, c.index), MergeCommit);
        && answer.Moved? && Adds(w, answer.commit, p) && w' == Publish(w, answer.commit, p, None)
        && c' == c.(index := c.index + 1)
      else answer == Failed && w' == w && c' == c
    case MergeOnto(parent, second, message, timestamp) =>
      var s := Apply(StateOf(w, CommitOf(w, parent)), c.plus, c.minus);
      if HasStaged(c) && CommitOf(w, second).Some? && SnapshotFits(s, message, c.index) then
        var p := Point(CommitOf(w, parent), CommitOf(w, second), s, Note(message, timestamp, c.index), MergeCommit);
        && answer.Moved? && Adds(w, answer.commit, p) && w' == Publish(w, answer.commit, p, c.branch)
        && c' == Client(map[], {}, c.index + 1, c.branch)
      else answer == Failed && w' == w && c' == c
    case Lookup(key) => w' == w && c' == c && answer == Found(Get(StateOf(w, w.head), key))
    case ReadAll => w' == w && c' == c && answer == Contents(StateOf(w, w.head))
    case ReadAt(t) => w' == w && c' == c && answer == Contents(StateOf(w, CommitOf(w, t)))
    case History(limit) =>
      w' == w && c' == c && answer == Lines(Log(w.commits, w.head, if limit > 0 then limit else 0))
  }

  // ---------- runs ----------

  datatype System = System(world: World, clients: seq<Client>)

  datatype Event = Event(who: nat, op: Op, answer: Answer)

  /** One client acts; the others keep their staged changes. */
  predicate Acts(s: System, e: Event, t: System) {
    && e.who < |s.clients| == |t.clients|
    && Step(s.world, s.clients[e.who], e.op, e.answer, t.world, t.clients[e.who])
    && t.clients == s.clients[e.who := t.clients[e.who]]
  }

  predicate Trace(states: seq<System>, events: seq<Event>) {
    |states| == |events| + 1 && forall i :: 0 <= i < |events| ==> Acts(states[i], events[i], states[i + 1])
  }

  predicate Keeps(before: map<Bytes, Point>, after: map<Bytes, Point>) {
    forall h :: h in before ==> h in after && after[h] == before[h]
  }

  /** Whatever any client does, every commit keeps its parents, its state and what it says. */
  lemma {:induction false} CommitsNeverChange(states: seq<System>, events: seq<Event>, i: nat, j: nat)
    requires Trace(states, events) && i <= j < |states|
    ensures Keeps(states[i].world.commits, states[j].world.commits)
    decreases j - i
  {
    if i < j {
      assert Acts(states[i], events[i], states[i + 1]);
      CommitsNeverChange(states, events, i + 1, j);
    }
  }

  /** A commit that an event answers with is there. */
  lemma AnswersKnown(s: System, e: Event, t: System)
    requires Acts(s, e, t)
    ensures Keeps(s.world.commits, t.world.commits)
    ensures e.answer.Moved? ==> e.answer.commit in t.world.commits
  {}

  /** The events from `i` on are `n` successful commits. */
  predicate Commits(events: seq<Event>, i: nat, n: nat)
    requires i + n <= |events|
  {
    forall k :: i <= k < i + n ==> events[k].op.Commit? && events[k].answer.Moved?
  }

  lemma CommitOnTop(s: System, e: Event, t: System)
    requires Acts(s, e, t) && e.op.Commit? && e.answer.Moved?
    ensures t.world.head == Some(e.answer.commit) && e.answer.commit in t.world.commits
    ensures t.world.commits[e.answer.commit].parent == s.world.head
    ensures Keeps(s.world.commits, t.world.commits)
  {}

  /** `n` commits, by whichever clients, put the old HEAD `n` steps behind the new one; on
      an empty collection they put the root there. */
  lemma {:induction false} CommitsStack(states: seq<System>, events: seq<Event>, i: nat, n: nat)
    requires Trace(states, events) && i + n <= |events| && Commits(events, i, n)
    ensures var a, b := states[i].world, states[i + n].world;
            && (a.head.Some? && a.head.value in a.commits ==>
                  b.head.Some? && Back(b.commits, b.head.value, n) == a.head.value)
            && (a.head.None? && n > 0 ==>
                  b.head.Some? && Back(b.commits, b.head.value, n) == events[i].answer.commit)
    decreases n
  {
    if n > 0 {
      var last := i + n - 1;
      CommitsStack(states, events, i, n - 1);
      var a, b, c := states[i].world, states[last].world, states[last + 1].world;
      CommitOnTop(states[last], events[last], states[last + 1]);
      if a.head.Some? && a.head.value in a.commits {
        CommitsNeverChange(states, events, i, last);
        OneMoreBack(b.commits, c.commits, c.head.value, n, a.head.value);
      } else if a.head.None? && n > 1 {
        CommitOnTop(states[i], events[i], states[i + 1]);
        CommitsNeverChange(states, events, i + 1, last);
        OneMoreBack(b.commits, c.commits, c.head.value, n, events[i].answer.commit);
      }
    }
  }

  lemma OneMoreBack(before: map<Bytes, Point>, after: map<Bytes, Point>, h: Bytes, n: nat, a: Bytes)
    requires Keeps(before, after) && n > 0 && a in before
    requires h in after && after[h].parent.Some? && Back(before, after[h].parent.value, n - 1) == a
    ensures Back(after, h, n) == a
  {
    BackKept(before, after, after[h].parent.value, n - 1);
  }

  lemma {:induction false} BackKept(before: map<Bytes, Point>, after: map<Bytes, Point>, h: Bytes, n: nat)
    requires Keeps(before, after)
    requires Back(before, h, n) in before
    ensures Back(after, h, n) == Back(before, h, n)
    decreases n
  {
    if n > 0 && h in before && before[h].parent.Some? {
      BackKept(before, after, before[h].parent.value, n - 1);
    }
  }

  /** What a commit or a merge was given to say. */
  function Given(op: Op): Option<(Bytes, Bytes)> {
    match op
    case Commit(message, timestamp) => Some((message, timestamp))
    case Merge(_, message, timestamp) => Some((message, timestamp))
    case MergeOnto(_, _, message, timestamp) => Some((message, timestamp))
    case _ => None
  }

  /** Whatever happens in between, every history that reaches a commit shows the message and
      the time stamp that it was given, its number, and whether it is a merge. */
  lemma HistoryTells(states: seq<System>, events: seq<Event>, i: nat, j: nat, k: nat)
    requires Trace(states, events) && i < j < |events|
    requires Given(events[i].op).Some? && events[i].answer.Moved?
    requires events[j].op.History? && events[j].answer.Lines? && k < |events[j].answer.log|
    requires var w := states[j].world; w.head.Some? && Back(w.commits, w.head.value, k) == events[i].answer.commit
    ensures assert Acts(states[i], events[i], states[i + 1]);
            var line, given := events[j].answer.log[k], Given(events[i].op).value;
            && line.commit == Short(events[i].answer.commit)
            && line.note == Note(given.0, given.1, states[i].clients[events[i].who].index)
            && (line.kind == MergeCommit <==> !events[i].op.Commit?)
  {
    assert Acts(states[i], events[i], states[i + 1]);
    assert Acts(states[j], events[j], states[j + 1]);
    CommitsNeverChange(states, events, i + 1, j);
    var limit := events[j].op.limit;
    LogAt(states[j].world.commits, states[j].world.head.value, if limit > 0 then limit else 0, k);
  }

  /** HEAD, the branches and all first parents are commits. */
  predicate Whole(w: World) {
    && (w.head.Some? ==> w.head.value in w.commits)
    && (forall b :: b in w.branches ==> w.branches[b] in w.commits && w.head.Some?)
    && (forall h :: h in w.commits && w.commits[h].parent.Some? ==> w.commits[h].parent.value in w.commits)
  }

  lemma {:induction false} BackIsCommit(w: World, h: Bytes, n: nat)
    requires Whole(w) && h in w.commits
    ensures Back(w.commits, h, n) in w.commits
    decreases n
  {
    if n > 0 && w.commits[h].parent.Some? { BackIsCommit(w, w.commits[h].parent.value, n - 1); }
  }

  /** Nothing ever dangles, and no client stages a key both ways. */
  lemma {:induction false} StaysWhole(states: seq<System>, events: seq<Event>, i: nat)
    requires Trace(states, events) && i < |states| && Whole(states[0].world)
    requires forall c :: c in states[0].clients ==> c.plus.Keys !! c.minus
    ensures Whole(states[i].world)
    ensures forall c :: c in states[i].clients ==> c.plus.Keys !! c.minus
    decreases i
  {
    if i > 0 {
      StaysWhole(states, events, i - 1);
      assert Acts(states[i - 1], events[i - 1], states[i]);
      StepStaysWhole(states[i - 1], events[i - 1], states[i]);
    }
  }

  lemma StepStaysWhole(s: System, e: Event, t: System)
    requires Acts(s, e, t) && Whole(s.world)
    requires forall c :: c in s.clients ==> c.plus.Keys !! c.minus
    ensures Whole(t.world)
    ensures forall c :: c in t.clients ==> c.plus.Keys !! c.minus
  {
    assert s.clients[e.who] in s.clients;
    WorldStaysWhole(s.world, s.clients[e.who], e.op, e.answer, t.world, t.clients[e.who]);
  }

  lemma WorldStaysWhole(w: World, c: Client, op: Op, answer: Answer, w': World, c': Client)
    requires Step(w, c, op, answer, w', c') && Whole(w) && c.plus.Keys !! c.minus
    ensures Whole(w') && c'.plus.Keys !! c'.minus
  {
    if op.Undo? && w.head.Some? {
      BackIsCommit(w, w.head.value, if op.steps > 0 then op.steps else 0);
    }
  }

  /** `undo(n)` takes back `n` commits: HEAD and its state are what they were, whoever made
      the commits.  On a collection that was empty it stops at the root commit. */
  lemma UndoTakesBack(states: seq<System>, events: seq<Event>, i: nat, n: nat)
    requires Trace(states, events) && i + n < |events| && n > 0 && Whole(states[i].world)
    requires Commits(events, i, n) && events[i + n].op == Undo(n)
    ensures var a, b := states[i].world, states[i + n + 1].world;
            && (a.head.Some? ==> b.head == a.head && StateOf(b, b.head) == StateOf(a, a.head))
            && (a.head.None? ==> b.head == Some(events[i].answer.commit))
  {
    CommitsStack(states, events, i, n);
    assert Acts(states[i + n], events[i + n], states[i + n + 1]);
    CommitsNeverChange(states, events, i, i + n + 1);
  }
}
