/** Any number of older lenses on one collection, interleaving whole operations. */
module OlderRuns {
  import opened Basics
  import opened Codec
  import opened Kernel
  import opened ProllyTree
  import opened OlderTree
  import opened History
  import opened Refs
  import opened LensSteps
  import opened OlderLens

  datatype Op =
    | Stage(key: Bytes, blobHash: Bytes)
    | StageDelete(key: Bytes)
    | Commit(message: Bytes, timestamp: Bytes)
    | Branch(branch: string)
    | Checkout(branch: string)
    | Undo(steps: int)
    | Merge(branch: string, message: Bytes, timestamp: Bytes)
    | Lookup(key: Bytes)
    | ReadAll
    | History(limit: int)

  datatype Answer =
    | Done | Refused | Moved(commit: Bytes) | Found(value: Option<Bytes>) | All(state: State)
    | Lines(log: seq<LogEntry>)

  datatype Client = Client(plus: State, minus: set<Bytes>, index: nat, branch: Option<string>)

  datatype World = World(versions: Versions, roots: Roots)

  predicate Typed(op: Op) {
    match op
    case Stage(_, blobHash) => |blobHash| == HASH_LEN
    case Commit(_, timestamp) => |timestamp| == 8
    case Merge(_, _, timestamp) => |timestamp| == 8
    case _ => true
  }

  /** No commit of the collection rests on more than four deltas, and no reference dangles. */
  ghost predicate Sane(w: World, name: string) {
    WellFormed(w.versions) && Shallow(w.versions) && RefsKnown(w.versions, w.roots, name)
  }

  /** HEAD is put on `h`. */
  ghost predicate PutOn(w: World, name: string, h: Bytes, branch: Option<string>, w': World, c': Client) {
    && h in w.versions && w' == w.(roots := w.roots[HeadRef(name) := h])
    && c' == Client(map[], {}, w.versions[h].note.index + 1, branch)
  }

  /** A new commit that stands for what is stored of `v` becomes HEAD. */
  ghost predicate Adds(hash: Digest, w: World, name: string, v: Version, branch: Option<string>,
                       answer: Answer, w': World)
  {
    && answer.Moved?
    && AdvancedOlder(w.versions, w.roots, w'.versions, w'.roots, name, answer.commit, Stored(hash, v), branch)
  }

  /** What one operation of one lens does. */
  ghost predicate Step(hash: Digest, name: string, w: World, c: Client, op: Op, answer: Answer, w': World, c': Client)
    requires Sane(w, name)
  {
    var head := Head(w.roots, name);
    match op
    case Stage(key, blobHash) =>
      answer == Done && w' == w && c' == c.(plus := c.plus[key := blobHash], minus := c.minus - {key})
    case StageDelete(key) =>
      answer == Done && w' == w && c' == c.(plus := c.plus - {key}, minus := c.minus + {key})
    case Lookup(key) => answer == Found(Get(StateAt(w.versions, head), key)) && w' == w && c' == c
    case ReadAll => answer == All(StateAt(w.versions, head)) && w' == w && c' == c
    case History(limit) =>
      answer == Lines(LogOf(w.versions, head, if limit > 0 then limit else 0)) && w' == w && c' == c
    case Branch(b) =>
      if head.None? then answer == Refused && w' == w && c' == c
      else answer == Done && w' == w.(roots := w.roots[BranchRef(name, b) := head.value]) && c' == c
    case Checkout(b) =>
      if BranchRef(name, b) !in w.roots then answer == Refused && w' == w && c' == c
      else answer == Done && PutOn(w, name, w.roots[BranchRef(name, b)], Some(b), w', c')
    case Undo(steps) =>
      if head.None? then answer == Refused && w' == w && c' == c
      else
        var h := Ancestor(w.versions, head.value, if steps > 0 then steps else 0);
        answer == Moved(h) && PutOn(w, name, h, None, w', c')
    case Commit(message, timestamp) =>
      var v := RecountedVersion(w.versions, head, c.plus, c.minus, Note(message, timestamp, c.index));
      if CanCommit(v, c.plus, c.minus)
      then Adds(hash, w, name, v, c.branch, answer, w') && c' == Client(map[], {}, c.index + 1, c.branch)
      else answer == Refused && w' == w && c' == c
    case Merge(b, message, timestamp) =>
      if BranchRef(name, b) !in w.roots then answer == Refused && w' == w && c' == c
      else
        var v := UnionVersion(w.versions, head, w.roots[BranchRef(name, b)], Note(message, timestamp, c.index));
        if SnapshotFits(v.state, message, c.index)
        then Adds(hash, w, name, v, None, answer, w') && c' == c.(index := c.index + 1)
        else answer == Refused && w' == w && c' == c
  }

  /** What a commit or a merge stores is the whole state exactly when it is a delta or has at
      most 4096 keys. */
  lemma StoredWhole(hash: Digest, v: Version)
    requires Sha(hash) && Writes(v.state)
    ensures Stored(hash, v) == v <==> !v.snapshot || |v.state| <= TWO_LEVELS
  {
    OlderStoresRemaining(hash, v.state);
  }

  ghost function WorldAt(lens: OlderLens): World
    reads lens.kernel, lens.ledger
  {
    World(lens.ledger.versions, lens.kernel.roots)
  }

  ghost function ClientAt(lens: OlderLens): Client
    reads lens
  {
    Client(lens.stagedAdd, lens.stagedDel, lens.commitIndex, lens.activeBranch)
  }

  ghost predicate Ready(lens: OlderLens)
    reads lens, lens.kernel, lens.ledger
  {
    lens.Local() && OlderRepo(lens.kernel, lens.ledger, lens.name)
  }

  method DoCommit(lens: OlderLens, message: Bytes, timestamp: Bytes) returns (answer: Answer)
    requires Ready(lens) && |timestamp| == 8
    modifies lens, lens.kernel, lens.ledger
    ensures lens.kernel.collisionFree ==>
              && Ready(lens)
              && Step(lens.kernel.hash, lens.name, old(WorldAt(lens)), old(ClientAt(lens)),
                      Op.Commit(message, timestamp), answer, WorldAt(lens), ClientAt(lens))
  {
    var r := lens.Commit(message, timestamp);
    answer := if r.Some? then Moved(r.value) else Refused;
  }

  method DoMerge(lens: OlderLens, branch: string, message: Bytes, timestamp: Bytes) returns (answer: Answer)
    requires Ready(lens) && |timestamp| == 8
    modifies lens, lens.kernel, lens.ledger
    ensures lens.kernel.collisionFree ==>
              && Ready(lens)
              && Step(lens.kernel.hash, lens.name, old(WorldAt(lens)), old(ClientAt(lens)),
                      Merge(branch, message, timestamp), answer, WorldAt(lens), ClientAt(lens))
  {
    ghost var w, c := WorldAt(lens), ClientAt(lens);
    var r := lens.Merge(branch, message, timestamp);
    answer := if r.Some? then Moved(r.value) else Refused;
    if lens.kernel.collisionFree {
      assert Step(lens.kernel.hash, lens.name, w, c, Op.Merge(branch, message, timestamp), answer,
                  WorldAt(lens), ClientAt(lens));
    }
  }

  method DoMove(lens: OlderLens, op: Op) returns (answer: Answer)
    requires Ready(lens) && (op.Checkout? || op.Undo? || op.Branch?)
    modifies lens, lens.kernel, lens.ledger
    ensures lens.kernel.collisionFree == old(lens.kernel.collisionFree) && Ready(lens)
    ensures Step(lens.kernel.hash, lens.name, old(WorldAt(lens)), old(ClientAt(lens)), op, answer,
                 WorldAt(lens), ClientAt(lens))
  {
    match op {
      case Checkout(b) =>
        var ok := lens.Checkout(b);
        answer := if ok then Done else Refused;
      case Undo(steps) =>
        var r := lens.Undo(steps);
        answer := if r.Some? then Moved(r.value) else Refused;
      case Branch(b) =>
        var ok := lens.Branch(b);
        answer := if ok then Done else Refused;
    }
  }

  method DoRest(lens: OlderLens, op: Op) returns (answer: Answer)
    requires Ready(lens) && Typed(op) && (op.Stage? || op.StageDelete? || op.Lookup? || op.ReadAll? || op.History?)
    modifies lens
    ensures Ready(lens)
    ensures Step(lens.kernel.hash, lens.name, old(WorldAt(lens)), old(ClientAt(lens)), op, answer,
                 WorldAt(lens), ClientAt(lens))
  {
    match op {
      case Stage(key, blobHash) =>
        lens.Stage(key, blobHash);
        answer := Done;
      case StageDelete(key) =>
        lens.StageDelete(key);
        answer := Done;
      case Lookup(key) =>
        var r := lens.Lookup(key);
        answer := Found(r);
      case ReadAll =>
        var s := lens.ReadAll();
        answer := All(s);
      case History(limit) =>
        var log := lens.History(limit);
        answer := Lines(log);
    }
  }

  method Perform(lens: OlderLens, op: Op) returns (answer: Answer)
    requires Ready(lens) && Typed(op)
    modifies lens, lens.kernel, lens.ledger
    ensures lens.kernel.collisionFree ==>
              && Ready(lens)
              && Step(lens.kernel.hash, lens.name, old(WorldAt(lens)), old(ClientAt(lens)), op, answer,
                      WorldAt(lens), ClientAt(lens))
  {
    if op.Commit? {
      answer := DoCommit(lens, op.message, op.timestamp);
    } else if op.Merge? {
      answer := DoMerge(lens, op.branch, op.message, op.timestamp);
    } else if op.Checkout? || op.Undo? || op.Branch? {
      answer := DoMove(lens, op);
    } else {
      answer := DoRest(lens, op);
    }
  }

  // ---------- runs ----------

  datatype System = System(world: World, clients: seq<Client>)

  datatype Event = Event(who: nat, op: Op, answer: Answer)

  /** An empty store and `n` lenses with nothing staged. */
  ghost predicate Fresh(s: System, n: nat) {
    s.world == World(map[], map[]) && |s.clients| == n && forall c :: c in s.clients ==> c == Client(map[], {}, 0, None)
  }

  ghost predicate Acts(hash: Digest, name: string, s: System, e: Event, t: System) {
    && Sane(s.world, name) && e.who < |s.clients| == |t.clients|
    && t.clients == s.clients[e.who := t.clients[e.who]]
    && Step(hash, name, s.world, s.clients[e.who], e.op, e.answer, t.world, t.clients[e.who])
  }

  ghost predicate Trace(hash: Digest, name: string, states: seq<System>, events: seq<Event>) {
    && |states| == |events| + 1
    && forall i :: 0 <= i < |events| ==> Acts(hash, name, states[i], events[i], states[i + 1])
  }

  ghost function Clients(lenses: seq<OlderLens>): (cs: seq<Client>)
    reads lenses
    ensures |cs| == |lenses| && forall i :: 0 <= i < |cs| ==> cs[i] == ClientAt(lenses[i])
  {
    if lenses == [] then [] else Clients(lenses[..|lenses| - 1]) + [ClientAt(lenses[|lenses| - 1])]
  }

  ghost function SystemAt(lenses: seq<OlderLens>, k: MemoryKernel<Bytes, Bytes, Ref>, ledger: Ledger): System
    reads lenses, k, ledger
  {
    System(World(ledger.versions, k.roots), Clients(lenses))
  }

  ghost predicate Together(lenses: seq<OlderLens>, k: MemoryKernel<Bytes, Bytes, Ref>, ledger: Ledger, name: string)
    reads lenses
  {
    && (forall i, j :: 0 <= i < j < |lenses| ==> lenses[i] != lenses[j])
    && (forall i :: 0 <= i < |lenses| ==>
          lenses[i].kernel == k && lenses[i].ledger == ledger && lenses[i].name == name && lenses[i].Local())
  }

  lemma Acted(hash: Digest, name: string, s: System, e: Event, t: System)
    requires Sane(s.world, name) && e.who < |s.clients| == |t.clients|
    requires Step(hash, name, s.world, s.clients[e.who], e.op, e.answer, t.world, t.clients[e.who])
    requires forall i :: 0 <= i < |s.clients| && i != e.who ==> t.clients[i] == s.clients[i]
    ensures Acts(hash, name, s, e, t)
  {
  }

  /** One lens acts among others. */
  method Turn(lenses: seq<OlderLens>, k: MemoryKernel<Bytes, Bytes, Ref>, ledger: Ledger, name: string,
              who: nat, op: Op)
    returns (answer: Answer)
    requires Together(lenses, k, ledger, name) && OlderRepo(k, ledger, name) && who < |lenses| && Typed(op)
    modifies lenses, k, ledger
    ensures k.collisionFree ==>
              && Together(lenses, k, ledger, name) && OlderRepo(k, ledger, name)
              && Acts(k.hash, name, old(SystemAt(lenses, k, ledger)), Event(who, op, answer),
                      SystemAt(lenses, k, ledger))
  {
    ghost var s := SystemAt(lenses, k, ledger);
    answer := Perform(lenses[who], op);
    if k.collisionFree { Acted(k.hash, name, s, Event(who, op, answer), SystemAt(lenses, k, ledger)); }
  }

  function Events(script: seq<(nat, Op)>, answers: seq<Answer>): (es: seq<Event>)
    requires |answers| <= |script|
  {
    seq(|answers|, i requires 0 <= i < |answers| => Event(script[i].0, script[i].1, answers[i]))
  }

  lemma TraceGrows(hash: Digest, name: string, script: seq<(nat, Op)>, answers: seq<Answer>, states: seq<System>,
                   answer: Answer, t: System)
    requires |answers| < |script| && Trace(hash, name, states, Events(script, answers))
    requires var (who, op) := script[|answers|]; Acts(hash, name, states[|answers|], Event(who, op, answer), t)
    ensures Trace(hash, name, states + [t], Events(script, answers + [answer]))
  {
    var (who, op) := script[|answers|];
    assert Events(script, answers + [answer]) == Events(script, answers) + [Event(who, op, answer)];
  }

  /** Whatever any number of lenses do, in whatever order, starting from an empty store: every
      operation does what `Step` says, so every read answers the state at HEAD, and no commit
      ever rests on more than four deltas. */
  method RunFromNothing(hash: Bytes -> Bytes, name: string, n: nat, script: seq<(nat, Op)>)
    returns (answers: seq<Answer>, lenses: seq<OlderLens>, k: MemoryKernel<Bytes, Bytes, Ref>, ledger: Ledger,
             ghost states: seq<System>)
    requires Sha(hash) && forall i :: 0 <= i < |script| ==> script[i].0 < n && Typed(script[i].1)
    ensures |answers| <= |script| && Trace(hash, name, states, Events(script, answers))
    ensures Fresh(states[0], n)
    ensures k.collisionFree ==>
              && |answers| == |script| && |lenses| == n
              && OlderRepo(k, ledger, name) && states[|script|] == SystemAt(lenses, k, ledger)
  {
    lenses, k, ledger := Open(hash, name, n);
    answers, states := [], [SystemAt(lenses, k, ledger)];
    while |answers| < |script|
      invariant |answers| <= |script| && Trace(hash, name, states, Events(script, answers))
      invariant Fresh(states[0], n)
      invariant fresh(k) && fresh(ledger) && (forall lens :: lens in lenses ==> fresh(lens))
      invariant |lenses| == n && k.hash == hash
      invariant Together(lenses, k, ledger, name) && OlderRepo(k, ledger, name)
      invariant states[|answers|] == SystemAt(lenses, k, ledger)
    {
      var (who, op) := script[|answers|];
      var answer := Turn(lenses, k, ledger, name, who, op);
      if !k.collisionFree { return; }
      ghost var now := SystemAt(lenses, k, ledger);
      TraceGrows(hash, name, script, answers, states, answer, now);
      answers, states := answers + [answer], states + [now];
    }
  }

  /** Opens `n` lenses on a new collection of a new store. */
  method Open(hash: Bytes -> Bytes, name: string, n: nat)
    returns (lenses: seq<OlderLens>, k: MemoryKernel<Bytes, Bytes, Ref>, ledger: Ledger)
    requires Sha(hash)
    ensures fresh(k) && fresh(ledger) && (forall lens :: lens in lenses ==> fresh(lens)) && |lenses| == n
    ensures Together(lenses, k, ledger, name) && OlderRepo(k, ledger, name) && k.hash == hash
    ensures Fresh(SystemAt(lenses, k, ledger), n)
  {
    k := new MemoryKernel<Bytes, Bytes, Ref>(hash, NIL);
    ledger := new Ledger();
    lenses := [];
    while |lenses| < n
      invariant |lenses| <= n && fresh(k) && fresh(ledger) && (forall lens :: lens in lenses ==> fresh(lens))
      invariant Together(lenses, k, ledger, name) && OlderRepo(k, ledger, name) && k.hash == hash
      invariant ledger.versions == map[] && k.roots == map[]
      invariant forall i :: 0 <= i < |lenses| ==> ClientAt(lenses[i]) == Client(map[], {}, 0, None)
    {
      var lens := new OlderLens(k, ledger, name);
      lenses := lenses + [lens];
    }
  }
}
