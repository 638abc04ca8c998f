/** The flood budget: a token bucket with a degraded mode in front of a bounded queue in which a
    newer command may supersede an older one.  Times are seconds, tokens are reals. */
module FloodBudget {
  import opened Options

  datatype Kind =
    | SendMessage | MoveChannel | SetMuted | SetAway | SetNickname
    | KickClient | BanClient | BanUid | BanAddress | BanDelete | ListBans
    | SubscribeChannel | ChannelDescription | AddClientToGroup | RemoveClientFromGroup
    | ComplainAdd | SetTalker | DownloadFile | UploadFile | RequestFileList | DeleteFile
    | CreateDirectory | RenameFile | FileInfoRequest | UseToken
    | CreateChannel | EditChannel | DeleteChannel | MoveChannelTree
    | PokeClient | SetChannelCommander | Disconnect | SendAudio

  /** The content is whatever the caller filled in; the budget does not look at it. */
  datatype Command = Command(kind: Kind, content: string)

  function FloodCost(kind: Kind): (r: real)
    ensures 0.0 <= r <= DEGRADED_CAPACITY
  {
    match kind
    case SendMessage | SetNickname | PokeClient => 2.0
    case MoveChannel => 1.5
    case SetMuted | SetAway | SetChannelCommander => 0.5
    case KickClient | BanClient | BanUid | BanAddress | BanDelete => 2.0
    case AddClientToGroup | RemoveClientFromGroup | ComplainAdd | SetTalker => 2.0
    case ListBans | SubscribeChannel | ChannelDescription => 1.0
    case DownloadFile | UploadFile => 1.0
    case RequestFileList | DeleteFile | CreateDirectory | RenameFile | FileInfoRequest => 1.0
    case UseToken => 1.0
    case CreateChannel | EditChannel | DeleteChannel | MoveChannelTree => 2.0
    case SendAudio | Disconnect => 0.0
  }

  /** Commands that carry a state the server should end up in. */
  predicate IsState(kind: Kind) {
    match kind
    case MoveChannel | SetMuted | SetAway | SetNickname | RequestFileList => true
    case FileInfoRequest | SetChannelCommander | SubscribeChannel | ListBans | SetTalker => true
    case _ => false
  }

  predicate Supersedes(command: Command, other: Command) {
    command.kind == other.kind && IsState(command.kind)
  }

  /** A text message is the most expensive command and a mute update the cheapest; a rename is the
      most expensive state update; moderation and channel administration cost as much as a text
      message. */
  lemma PricesAreOrdered(kind: Kind)
    ensures kind != SendAudio && kind != Disconnect <==> FloodCost(SetMuted) <= FloodCost(kind)
    ensures FloodCost(kind) <= FloodCost(SendMessage)
    ensures IsState(kind) ==> FloodCost(kind) <= FloodCost(SetNickname)
    ensures IsModeration(kind) ==> FloodCost(kind) == FloodCost(SendMessage)
    ensures IsFileCommand(kind) ==> FloodCost(kind) == FloodCost(DownloadFile)
  {
  }

  /** Each price, by the commands that have it. */
  lemma PricesAre(kind: Kind)
    ensures FloodCost(kind) == 0.0 <==> kind in {SendAudio, Disconnect}
    ensures FloodCost(kind) == 0.5 <==> kind in {SetMuted, SetAway, SetChannelCommander}
    ensures FloodCost(kind) == 1.5 <==> kind == MoveChannel
    ensures FloodCost(kind) == 1.0
            <==> kind in {ListBans, SubscribeChannel, ChannelDescription, DownloadFile, UploadFile, RequestFileList,
                          DeleteFile, CreateDirectory, RenameFile, FileInfoRequest, UseToken}
    ensures FloodCost(kind) == 2.0
            <==> kind in {SendMessage, SetNickname, PokeClient, KickClient, BanClient, BanUid, BanAddress, BanDelete,
                          AddClientToGroup, RemoveClientFromGroup, ComplainAdd, SetTalker,
                          CreateChannel, EditChannel, DeleteChannel, MoveChannelTree}
  {
  }

  predicate IsModeration(kind: Kind) {
    match kind
    case KickClient | BanClient | BanUid | BanAddress | BanDelete => true
    case AddClientToGroup | RemoveClientFromGroup | ComplainAdd | SetTalker => true
    case CreateChannel | EditChannel | DeleteChannel | MoveChannelTree => true
    case _ => false
  }

  predicate IsFileCommand(kind: Kind) {
    match kind
    case DownloadFile | UploadFile => true
    case RequestFileList | DeleteFile | CreateDirectory | RenameFile | FileInfoRequest => true
    case _ => false
  }

  const CAPACITY: real := 8.0
  const REFILL_PER_SEC: real := 3.0
  const DEGRADED_CAPACITY: real := 2.0
  const DEGRADED_REFILL_PER_SEC: real := 0.5
  const DEGRADED_DURATION: real := 30.0
  const MAX_QUEUE: nat := 32

  function Min(a: real, b: real): real {
    if a <= b then a else b
  }

  function Max(a: real, b: real): real {
    if a <= b then b else a
  }

  datatype Bucket = Bucket(
    tokens: real,
    capacity: real,
    refillPerSec: real,
    lastRefill: real,
    degradedUntil: Option<real>)

  function Full(now: real): Bucket {
    Bucket(CAPACITY, CAPACITY, REFILL_PER_SEC, now, None)
  }

  function Degraded(b: Bucket, now: real): Bucket {
    Bucket(0.0, DEGRADED_CAPACITY, DEGRADED_REFILL_PER_SEC, b.lastRefill, Some(now + DEGRADED_DURATION))
  }

  function Recovered(b: Bucket, now: real): Bucket {
    if b.degradedUntil.Some? && now >= b.degradedUntil.value then
      b.(degradedUntil := None, capacity := CAPACITY, refillPerSec := REFILL_PER_SEC)
    else
      b
  }

  /** A clock that went backwards counts as no time passed. */
  function Elapsed(since: real, now: real): real {
    Max(now - since, 0.0)
  }

  function Gained(elapsed: real, rate: real): real {
    elapsed * rate
  }

  function Refilled(b: Bucket, now: real): Bucket {
    var r := Recovered(b, now);
    var elapsed := Elapsed(r.lastRefill, now);
    if elapsed == 0.0 then r
    else r.(lastRefill := now, tokens := Min(r.tokens + Gained(elapsed, r.refillPerSec), r.capacity))
  }

  /** The first command from `i` on that the new one supersedes. */
  function Slot(command: Command, queue: seq<Command>, i: nat): (r: nat)
    requires i <= |queue|
    ensures i <= r <= |queue|
    ensures r < |queue| ==> Supersedes(command, queue[r])
    decreases |queue| - i
  {
    if i == |queue| || Supersedes(command, queue[i]) then i else Slot(command, queue, i + 1)
  }

  /** The queue after a command was put in, and what left it at the front and in the middle. */
  datatype Queued = Queued(queue: seq<Command>, dropped: seq<Command>, superseded: seq<Command>)

  function Enqueued(queue: seq<Command>, command: Command): Queued {
    var slot := Slot(command, queue, 0);
    if slot < |queue| then
      Queued(queue[slot := command], [], [queue[slot]])
    else if |queue| >= MAX_QUEUE then
      Queued(queue[1..] + [command], [queue[0]], [])
    else
      Queued(queue + [command], [], [])
  }

  predicate Affordable(b: Bucket, queue: seq<Command>) {
    queue != [] && b.tokens >= FloodCost(queue[0].kind)
  }

  // ---------- The program's object ----------

  class CommandBudget {
    var tokens: real
    var capacity: real
    var refillPerSec: real
    var lastRefill: real
    var degradedUntil: Option<real>
    var queue: seq<Command>
    var dropped: nat

    ghost function View(): Bucket
      reads this
    {
      Bucket(tokens, capacity, refillPerSec, lastRefill, degradedUntil)
    }

    constructor (now: real)
      ensures View() == Full(now) && queue == [] && dropped == 0
    {
      tokens := CAPACITY;
      capacity := CAPACITY;
      refillPerSec := REFILL_PER_SEC;
      lastRefill := now;
      degradedUntil := None;
      queue := [];
      dropped := 0;
    }

    method EnterDegraded(now: real)
      modifies this
      ensures View() == Degraded(old(View()), now)
      ensures queue == old(queue) && dropped == old(dropped)
    {
      degradedUntil := Some(now + DEGRADED_DURATION);
      capacity := DEGRADED_CAPACITY;
      refillPerSec := DEGRADED_REFILL_PER_SEC;
      tokens := 0.0;
    }

    method Refill(now: real)
      modifies this
      ensures View() == Refilled(old(View()), now)
      ensures queue == old(queue) && dropped == old(dropped)
    {
      hide Gained;
      if degradedUntil.Some? && now >= degradedUntil.value {
        degradedUntil := None;
        capacity := CAPACITY;
        refillPerSec := REFILL_PER_SEC;
      }
      var elapsed := Elapsed(lastRefill, now);
      if elapsed == 0.0 {
        return;
      }
      lastRefill := now;
      tokens := Min(tokens + Gained(elapsed, refillPerSec), capacity);
    }

    method Enqueue(command: Command)
      modifies this
      ensures View() == old(View())
      ensures queue == Enqueued(old(queue), command).queue
      ensures dropped == old(dropped) + |Enqueued(old(queue), command).dropped|
    {
      var i := 0;
      while i < |queue| && !Supersedes(command, queue[i])
        invariant i <= |queue| && Slot(command, queue, 0) == Slot(command, queue, i)
      {
        i := i + 1;
      }
      if i < |queue| {
        queue := queue[i := command];
        return;
      }
      if |queue| >= MAX_QUEUE {
        queue := queue[1..];
        dropped := dropped + 1;
      }
      queue := queue + [command];
    }

    method TakeReady(now: real) returns (command: Option<Command>)
      modifies this
      ensures dropped == old(dropped)
      ensures var b := Refilled(old(View()), now);
              if Affordable(b, old(queue)) then
                && command == Some(old(queue)[0]) && queue == old(queue)[1..]
                && View() == b.(tokens := b.tokens - FloodCost(old(queue)[0].kind))
              else
                command == None && queue == old(queue) && View() == b
    {
      Refill(now);
      if queue == [] {
        return None;
      }
      var cost := FloodCost(queue[0].kind);
      if tokens < cost {
        return None;
      }
      tokens := tokens - cost;
      command := Some(queue[0]);
      queue := queue[1..];
    }
  }

  // ---------- Runs ----------

  datatype Step = Enqueue(command: Command) | TakeReady(now: real) | FloodReport(now: real)

  /** The budget, and what became of the commands since the start of the run.  `left` holds the
      released and the dropped commands in the order they left the front of the queue. */
  datatype State = State(
    bucket: Bucket,
    queue: seq<Command>,
    released: seq<Command>,
    dropped: seq<Command>,
    superseded: seq<Command>,
    left: seq<Command>)

  function Next(s: State, step: Step): State {
    match step
    case Enqueue(command) =>
      var q := Enqueued(s.queue, command);
      s.(queue := q.queue, dropped := s.dropped + q.dropped,
         superseded := s.superseded + q.superseded, left := s.left + q.dropped)
    case TakeReady(now) =>
      var b := Refilled(s.bucket, now);
      if Affordable(b, s.queue) then
        s.(bucket := b.(tokens := b.tokens - FloodCost(s.queue[0].kind)), queue := s.queue[1..],
           released := s.released + [s.queue[0]], left := s.left + [s.queue[0]])
      else
        s.(bucket := b)
    case FloodReport(now) => s.(bucket := Degraded(s.bucket, now))
  }

  function Start(bucket: Bucket, queue: seq<Command>): State {
    State(bucket, queue, [], [], [], [])
  }

  function After(s: State, steps: seq<Step>): State {
    if steps == [] then s else Next(After(s, steps[..|steps| - 1]), steps[|steps| - 1])
  }

  function GivenBy(step: Step): seq<Command> {
    if step.Enqueue? then [step.command] else []
  }

  /** The commands put in by some steps. */
  function Given(steps: seq<Step>): seq<Command> {
    if steps == [] then []
    else Given(steps[..|steps| - 1]) + GivenBy(steps[|steps| - 1])
  }

  // ---------- The bucket ----------

  predicate BucketOk(b: Bucket) {
    && 0.0 <= b.tokens <= b.capacity
    && b.capacity == (if b.degradedUntil.Some? then DEGRADED_CAPACITY else CAPACITY)
    && b.refillPerSec == (if b.degradedUntil.Some? then DEGRADED_REFILL_PER_SEC else REFILL_PER_SEC)
  }

  function Capacity(slow: bool): real {
    if slow then DEGRADED_CAPACITY else CAPACITY
  }

  /** What a time is worth. */
  function Allowance(slow: bool, time: real): real {
    if slow then time * 0.5 else time * 3.0
  }

  /** Degraded at least up to `t`, if `slow`. */
  predicate SlowUntil(b: Bucket, slow: bool, t: real) {
    slow ==> b.degradedUntil.Some? && t < b.degradedUntil.value
  }

  /** What is gained lies between the degraded and the full rate. */
  lemma GainedIsBounded(b: Bucket, elapsed: real)
    requires BucketOk(b) && elapsed >= 0.0
    ensures elapsed * 0.5 <= Gained(elapsed, b.refillPerSec) <= elapsed * 3.0
    ensures b.degradedUntil.Some? ==> Gained(elapsed, b.refillPerSec) == elapsed * 0.5
  {
    if b.degradedUntil.Some? {
      assert elapsed * b.refillPerSec == elapsed * 0.5;
    } else {
      assert elapsed * b.refillPerSec == elapsed * 3.0;
    }
  }

  lemma RefillKeepsOk(b: Bucket, now: real)
    requires BucketOk(b)
    ensures BucketOk(Refilled(b, now))
    ensures Refilled(b, now).lastRefill == Max(b.lastRefill, now)
  {
    hide Gained;
    GainedIsBounded(Recovered(b, now), Elapsed(b.lastRefill, now));
  }

  /** A refill adds at most the time passed times the rate, and fills up to the capacity. */
  lemma RefillIsBounded(b: Bucket, now: real, slow: bool)
    requires BucketOk(b) && SlowUntil(b, slow, now)
    ensures Refilled(b, now).tokens <= Capacity(slow)
    ensures Refilled(b, now).tokens <= b.tokens + Allowance(slow, Elapsed(b.lastRefill, now))
  {
    hide Gained;
    RefillKeepsOk(b, now);
    GainedIsBounded(Recovered(b, now), Elapsed(b.lastRefill, now));
  }

  /** In the program's own numbers: 3 tokens a second up to 8; for 30 seconds from a report on 0.5 a
      second up to 2, and the first refill after these counts all of its time in full. */
  lemma RefillMeans(b: Bucket, now: real)
    requires BucketOk(b)
    ensures var r := Refilled(b, now);
            var slow := b.degradedUntil.Some? && now < b.degradedUntil.value;
            && (slow ==> r.degradedUntil == b.degradedUntil && r.capacity == 2.0)
            && (!slow ==> r.degradedUntil == None && r.capacity == 8.0)
            && (now <= b.lastRefill ==> r.tokens == b.tokens && r.lastRefill == b.lastRefill)
            && (now > b.lastRefill ==>
                  var gain := (now - b.lastRefill) * if slow then 0.5 else 3.0;
                  && r.lastRefill == now
                  && r.tokens == if b.tokens + gain <= r.capacity then b.tokens + gain else r.capacity)
  {
    var r := Recovered(b, now);
    GainedAt(r, Elapsed(b.lastRefill, now));
  }

  lemma GainedAt(b: Bucket, elapsed: real)
    requires BucketOk(b)
    ensures Gained(elapsed, b.refillPerSec) == elapsed * if b.degradedUntil.Some? then 0.5 else 3.0
  {
  }

  /** A report takes all tokens and starts 30 slow seconds. */
  lemma ReportMeans(b: Bucket, now: real)
    ensures var d := Degraded(b, now);
            && d.tokens == 0.0 && d.capacity == 2.0 && d.lastRefill == b.lastRefill
            && d.degradedUntil == Some(now + 30.0) && BucketOk(d)
    ensures Full(now).tokens == 8.0 && Full(now).degradedUntil == None && BucketOk(Full(now))
  {
  }

  function Cost(commands: seq<Command>): (r: real)
    ensures r >= 0.0
  {
    if commands == [] then 0.0
    else Cost(commands[..|commands| - 1]) + FloodCost(commands[|commands| - 1].kind)
  }

  lemma CostOfOneMore(commands: seq<Command>, command: Command)
    ensures Cost(commands + [command]) == Cost(commands) + FloodCost(command.kind)
  {
    assert (commands + [command])[..|commands|] == commands;
  }

  predicate InTime(step: Step, t1: real, t2: real) {
    match step
    case Enqueue(_) => true
    case TakeReady(now) => t1 <= now <= t2
    case FloodReport(now) => t1 <= now <= t2
  }

  predicate AllInTime(steps: seq<Step>, t1: real, t2: real) {
    forall i :: 0 <= i < |steps| ==> InTime(steps[i], t1, t2)
  }

  /** Where the bucket stands during an interval: `b0` at its start, `b` after releasing `cost`. */
  predicate Paid(b0: Bucket, b: Bucket, cost: real, t1: real, t2: real, slow: bool) {
    && BucketOk(b) && SlowUntil(b, slow, t2)
    && b0.lastRefill <= b.lastRefill <= Max(b0.lastRefill, t2)
    && (b.lastRefill < t1 ==> cost == 0.0)
    && var begin := Max(t1, b0.lastRefill);
       cost + b.tokens <= Capacity(slow) + Allowance(slow, Max(b.lastRefill, begin) - begin)
  }

  lemma RefillPays(b0: Bucket, b: Bucket, cost: real, now: real, t1: real, t2: real, slow: bool)
    requires Paid(b0, b, cost, t1, t2, slow) && t1 <= now <= t2
    ensures Paid(b0, Refilled(b, now), cost, t1, t2, slow)
    ensures Refilled(b, now).lastRefill >= t1
  {
    RefillKeepsOk(b, now);
    RefillIsBounded(b, now, slow);
  }

  lemma TakePays(b0: Bucket, b: Bucket, cost: real, price: real, t1: real, t2: real, slow: bool)
    requires Paid(b0, b, cost, t1, t2, slow) && b.lastRefill >= t1 && 0.0 <= price <= b.tokens
    ensures Paid(b0, b.(tokens := b.tokens - price), cost + price, t1, t2, slow)
  {
  }

  lemma ReportPays(b0: Bucket, b: Bucket, cost: real, now: real, t1: real, t2: real, slow: bool)
    requires Paid(b0, b, cost, t1, t2, slow) && t1 <= now <= t2
    requires slow ==> t2 < t1 + DEGRADED_DURATION
    ensures Paid(b0, Degraded(b, now), cost, t1, t2, slow)
  {
  }

  lemma StepPays(b0: Bucket, s: State, step: Step, t1: real, t2: real, slow: bool)
    requires Paid(b0, s.bucket, Cost(s.released), t1, t2, slow) && InTime(step, t1, t2)
    requires slow ==> t2 < t1 + DEGRADED_DURATION
    ensures var e := Next(s, step);
            Paid(b0, e.bucket, Cost(e.released), t1, t2, slow)
  {
    hide Paid, Refilled, Degraded, Cost, FloodCost, Enqueued;
    match step
    case Enqueue(_) =>
    case TakeReady(now) =>
      var b := Refilled(s.bucket, now);
      RefillPays(b0, s.bucket, Cost(s.released), now, t1, t2, slow);
      if Affordable(b, s.queue) {
        CostOfOneMore(s.released, s.queue[0]);
        TakePays(b0, b, Cost(s.released), FloodCost(s.queue[0].kind), t1, t2, slow);
      }
    case FloodReport(now) =>
      ReportPays(b0, s.bucket, Cost(s.released), now, t1, t2, slow);
  }

  lemma {:induction false} StepsPay(s: State, steps: seq<Step>, t1: real, t2: real, slow: bool)
    requires BucketOk(s.bucket) && SlowUntil(s.bucket, slow, t2) && s.released == []
    requires t1 <= t2 && (slow ==> t2 < t1 + DEGRADED_DURATION) && AllInTime(steps, t1, t2)
    ensures var e := After(s, steps);
            Paid(s.bucket, e.bucket, Cost(e.released), t1, t2, slow)
  {
    hide Next, InTime;
    if steps != [] {
      var before := steps[..|steps| - 1];
      StepsPay(s, before, t1, t2, slow);
      StepPays(s.bucket, After(s, before), steps[|steps| - 1], t1, t2, slow);
    }
  }

  /** Whatever happens in an interval, the cost released in it is at most the capacity plus the
      rate times its length; a degraded budget that stays so releases accordingly less. */
  lemma RateIsBounded(s: State, steps: seq<Step>, t1: real, t2: real, slow: bool)
    requires BucketOk(s.bucket) && SlowUntil(s.bucket, slow, t2) && s.released == []
    requires t1 <= t2 && (slow ==> t2 < t1 + DEGRADED_DURATION) && AllInTime(steps, t1, t2)
    ensures BucketOk(After(s, steps).bucket)
    ensures Cost(After(s, steps).released) <= Capacity(slow) + Allowance(slow, t2 - t1)
  {
    StepsPay(s, steps, t1, t2, slow);
  }

  // ---------- Progress ----------

  predicate NoReports(steps: seq<Step>) {
    forall i :: 0 <= i < |steps| ==> !steps[i].FloodReport?
  }

  /** The tokens gathered since a refill, if nothing was paid: at least what a degraded budget
      gathers. */
  predicate Gathered(b: Bucket, since: real) {
    BucketOk(b) && since <= b.lastRefill && b.tokens >= Min((b.lastRefill - since) * 0.5, 2.0)
  }

  lemma RefillGathers(b: Bucket, since: real, now: real)
    requires Gathered(b, since)
    ensures Gathered(Refilled(b, now), since)
  {
    hide Gained;
    RefillKeepsOk(b, now);
    GainedIsBounded(Recovered(b, now), Elapsed(b.lastRefill, now));
  }

  lemma {:induction false} WaitingGathers(s: State, steps: seq<Step>)
    requires BucketOk(s.bucket) && NoReports(steps)
    requires After(s, steps).released == s.released
    ensures Gathered(After(s, steps).bucket, s.bucket.lastRefill)
  {
    if steps != [] {
      var before := steps[..|steps| - 1];
      var e := After(s, before);
      ReleasedGrows(s, before);
      WaitingGathers(s, before);
      var step := steps[|steps| - 1];
      if step.TakeReady? {
        RefillGathers(e.bucket, s.bucket.lastRefill, step.now);
      }
    }
  }

  lemma {:induction false} ReleasedGrows(s: State, steps: seq<Step>)
    ensures |s.released| <= |After(s, steps).released|
    ensures |s.released| == |After(s, steps).released| ==> s.released == After(s, steps).released
  {
    if steps != [] {
      ReleasedGrows(s, steps[..|steps| - 1]);
    }
  }

  /** Without a flood report, a command waits no longer than 4 seconds: however often the budget
      was asked in vain since some refill, 4 seconds after it the front command is released. */
  lemma NoLongWait(s: State, steps: seq<Step>, now: real)
    requires BucketOk(s.bucket) && NoReports(steps)
    requires After(s, steps).released == s.released && After(s, steps).queue != []
    requires now >= s.bucket.lastRefill + 4.0
    ensures var e := After(s, steps);
            Next(e, TakeReady(now)).released == e.released + [e.queue[0]]
  {
    WaitingGathers(s, steps);
    RefillGathers(After(s, steps).bucket, s.bucket.lastRefill, now);
    RefillKeepsOk(After(s, steps).bucket, now);
  }

  /** After a flood report a command waits exactly until 2 seconds a token have passed since the
      last refill, which may be long before the report: it is not sure to wait at all. */
  lemma WaitAfterReport(s: State, report: real, now: real)
    requires BucketOk(s.bucket) && s.queue != [] && report <= now < report + DEGRADED_DURATION
    ensures var cost := FloodCost(s.queue[0].kind);
            Next(Next(s, FloodReport(report)), TakeReady(now)).released != s.released
            <==> cost == 0.0 || now - s.bucket.lastRefill >= 2.0 * cost
  {
    var b := Degraded(s.bucket, report);
    var r := Refilled(b, now);
    GainedIsBounded(b, Elapsed(b.lastRefill, now));
    if Affordable(r, s.queue) {
      assert |s.released + [s.queue[0]]| == |s.released| + 1;
    }
  }

  // ---------- The queue ----------

  /** At most one command of each superseding kind. */
  predicate NoRivals(queue: seq<Command>) {
    forall i, j :: 0 <= i < j < |queue| && IsState(queue[i].kind) ==> queue[i].kind != queue[j].kind
  }

  predicate QueueOk(queue: seq<Command>) {
    |queue| <= MAX_QUEUE && NoRivals(queue)
  }

  lemma {:induction false} SlotIsFirst(command: Command, queue: seq<Command>, i: nat)
    requires i <= |queue|
    ensures forall k :: i <= k < Slot(command, queue, i) ==> !Supersedes(command, queue[k])
    decreases |queue| - i
  {
    if i < |queue| && !Supersedes(command, queue[i]) {
      SlotIsFirst(command, queue, i + 1);
    }
  }

  lemma EnqueueKeepsQueueOk(queue: seq<Command>, command: Command)
    requires QueueOk(queue)
    ensures QueueOk(Enqueued(queue, command).queue)
  {
    SlotIsFirst(command, queue, 0);
  }

  lemma {:induction false} QueueStaysOk(s: State, steps: seq<Step>)
    requires QueueOk(s.queue)
    ensures QueueOk(After(s, steps).queue)
  {
    if steps != [] {
      QueueStaysOk(s, steps[..|steps| - 1]);
      var e := After(s, steps[..|steps| - 1]);
      var step := steps[|steps| - 1];
      if step.Enqueue? {
        EnqueueKeepsQueueOk(e.queue, step.command);
      }
    }
  }

  // ---------- No command is lost unseen ----------

  function All(s: State): multiset<Command> {
    multiset(s.released) + multiset(s.queue) + multiset(s.superseded) + multiset(s.dropped)
  }

  lemma EnqueueConserves(queue: seq<Command>, command: Command)
    ensures var q := Enqueued(queue, command);
            multiset(q.queue) + multiset(q.dropped) + multiset(q.superseded)
            == multiset(queue) + multiset([command])
  {
    var slot := Slot(command, queue, 0);
    if slot == |queue| && |queue| >= MAX_QUEUE {
      assert queue == [queue[0]] + queue[1..];
    }
  }

  lemma TakeConserves(released: seq<Command>, queue: seq<Command>)
    requires queue != []
    ensures multiset(released + [queue[0]]) + multiset(queue[1..]) == multiset(released) + multiset(queue)
  {
    assert queue == [queue[0]] + queue[1..];
  }

  lemma Rearranged(a: multiset<Command>, b: multiset<Command>, c: multiset<Command>, d: multiset<Command>,
        queue: multiset<Command>, dropped: multiset<Command>, superseded: multiset<Command>,
        given: multiset<Command>)
    requires queue + dropped + superseded == b + given
    ensures a + queue + (c + superseded) + (d + dropped) == a + b + c + d + given
  {
    calc {
      a + queue + (c + superseded) + (d + dropped);
      a + c + d + (queue + dropped + superseded);
      a + c + d + (b + given);
    }
  }

  lemma StepConserves(s: State, step: Step)
    ensures All(Next(s, step)) == All(s) + multiset(GivenBy(step))
  {
    hide Enqueued, Refilled, FloodCost, Degraded;
    if step.Enqueue? {
      var q := Enqueued(s.queue, step.command);
      EnqueueConserves(s.queue, step.command);
      assert All(Next(s, step)) == multiset(s.released) + multiset(q.queue)
               + (multiset(s.superseded) + multiset(q.superseded)) + (multiset(s.dropped) + multiset(q.dropped));
      Rearranged(multiset(s.released), multiset(s.queue), multiset(s.superseded), multiset(s.dropped),
                 multiset(q.queue), multiset(q.dropped), multiset(q.superseded), multiset(GivenBy(step)));
    } else if step.TakeReady? && Affordable(Refilled(s.bucket, step.now), s.queue) {
      TakeConserves(s.released, s.queue);
    } else {
      assert GivenBy(step) == [];
    }
  }

  /** Every command put in is released, waits, was superseded or was dropped: one of these, once. */
  lemma {:induction false} Conservation(s: State, steps: seq<Step>)
    ensures All(After(s, steps)) == All(s) + multiset(Given(steps))
  {
    hide Next, All, GivenBy;
    if steps != [] {
      Conservation(s, steps[..|steps| - 1]);
      StepConserves(After(s, steps[..|steps| - 1]), steps[|steps| - 1]);
    }
  }

  // ---------- Order ----------

  /** The commands that nothing supersedes. */
  function Plain(commands: seq<Command>): seq<Command> {
    if commands == [] then []
    else
      var last := commands[|commands| - 1];
      Plain(commands[..|commands| - 1]) + if IsState(last.kind) then [] else [last]
  }

  function LastOf(kind: Kind, commands: seq<Command>): Option<Command> {
    if commands == [] then None
    else if commands[|commands| - 1].kind == kind then Some(commands[|commands| - 1])
    else LastOf(kind, commands[..|commands| - 1])
  }

  lemma {:induction false} ReplacedKeepsPlain(commands: seq<Command>, i: nat, command: Command)
    requires i < |commands| && Supersedes(command, commands[i])
    ensures Plain(commands[i := command]) == Plain(commands)
  {
    var n := |commands| - 1;
    if i < n {
      ReplacedKeepsPlain(commands[..n], i, command);
      assert commands[i := command][..n] == commands[..n][i := command];
    } else {
      assert commands[i := command][..n] == commands[..n];
    }
  }

  lemma {:induction false} ReplacedIsLast(commands: seq<Command>, i: nat, command: Command, kind: Kind)
    requires i < |commands| && command.kind == commands[i].kind
    requires forall k :: i < k < |commands| ==> commands[k].kind != command.kind
    ensures LastOf(kind, commands[i := command])
            == if kind == command.kind then Some(command) else LastOf(kind, commands)
  {
    var n := |commands| - 1;
    if i < n {
      ReplacedIsLast(commands[..n], i, command, kind);
      assert commands[i := command][..n] == commands[..n][i := command];
    } else {
      assert commands[i := command][..n] == commands[..n];
    }
  }

  lemma OneMore(commands: seq<Command>, command: Command, kind: Kind)
    ensures Plain(commands + [command]) == Plain(commands) + if IsState(command.kind) then [] else [command]
    ensures LastOf(kind, commands + [command])
            == if kind == command.kind then Some(command) else LastOf(kind, commands)
  {
    assert (commands + [command])[..|commands|] == commands;
  }

  /** What left and what waits, in order. */
  function Trace(s: State): seq<Command> {
    s.left + s.queue
  }

  lemma EnqueueTrace(s: State, command: Command, kind: Kind)
    requires QueueOk(s.queue)
    ensures var e := Next(s, Enqueue(command));
            && Plain(Trace(e)) == Plain(Trace(s) + [command])
            && LastOf(kind, Trace(e)) == LastOf(kind, Trace(s) + [command])
  {
    var e := Next(s, Enqueue(command));
    var slot := Slot(command, s.queue, 0);
    if slot < |s.queue| {
      var i := |s.left| + slot;
      assert Trace(e) == Trace(s)[i := command];
      assert Trace(s)[i] == s.queue[slot];
      forall k | i < k < |Trace(s)|
        ensures Trace(s)[k].kind != command.kind
      {
        assert Trace(s)[k] == s.queue[k - |s.left|];
      }
      OneMore(Trace(s), command, kind);
      ReplacedKeepsPlain(Trace(s), i, command);
      ReplacedIsLast(Trace(s), i, command, kind);
    } else {
      assert Trace(e) == Trace(s) + [command];
    }
  }

  /** What left at the front was released or dropped. */
  lemma {:induction false} LeftIsReleasedOrDropped(s: State, steps: seq<Step>)
    requires multiset(s.left) == multiset(s.released) + multiset(s.dropped)
    ensures var e := After(s, steps);
            multiset(e.left) == multiset(e.released) + multiset(e.dropped)
  {
    hide Refilled, Affordable, Slot, Supersedes, Degraded;
    if steps != [] {
      LeftIsReleasedOrDropped(s, steps[..|steps| - 1]);
    }
  }

  lemma StepTrace(s: State, step: Step, kind: Kind)
    requires QueueOk(s.queue)
    ensures Plain(Trace(Next(s, step))) == Plain(Trace(s) + GivenBy(step))
    ensures LastOf(kind, Trace(Next(s, step))) == LastOf(kind, Trace(s) + GivenBy(step))
  {
    hide Plain, LastOf, QueueOk;
    if step.Enqueue? {
      EnqueueTrace(s, step.command, kind);
    } else {
      assert Trace(Next(s, step)) == Trace(s) + GivenBy(step);
    }
  }

  lemma MoreOfBoth(a: seq<Command>, b: seq<Command>, step: Step, kind: Kind)
    requires Plain(a) == Plain(b) && LastOf(kind, a) == LastOf(kind, b)
    ensures Plain(a + GivenBy(step)) == Plain(b + GivenBy(step))
    ensures LastOf(kind, a + GivenBy(step)) == LastOf(kind, b + GivenBy(step))
  {
    hide Plain, LastOf;
    if step.Enqueue? {
      OneMore(a, step.command, kind);
      OneMore(b, step.command, kind);
    } else {
      assert a + GivenBy(step) == a && b + GivenBy(step) == b;
    }
  }

  /** Commands that nothing supersedes leave in the order in which they were put in.  And the last
      command of any kind to leave or to wait is the last one that was put in, so the last
      intention of the user is never lost to an older one. */
  lemma {:induction false} OrderIsKept(s: State, steps: seq<Step>, kind: Kind)
    requires QueueOk(s.queue)
    ensures Plain(Trace(After(s, steps))) == Plain(Trace(s) + Given(steps))
    ensures LastOf(kind, Trace(After(s, steps))) == LastOf(kind, Trace(s) + Given(steps))
  {
    hide Plain, LastOf, Trace, Next, GivenBy, QueueOk;
    if steps == [] {
      assert Trace(s) + Given(steps) == Trace(s);
    } else {
      var before := steps[..|steps| - 1];
      var step := steps[|steps| - 1];
      OrderIsKept(s, before, kind);
      QueueStaysOk(s, before);
      StepTrace(After(s, before), step, kind);
      MoreOfBoth(Trace(After(s, before)), Trace(s) + Given(before), step, kind);
      assert Trace(s) + Given(steps) == Trace(s) + Given(before) + GivenBy(step);
    }
  }

  // ---------- By the commands themselves ----------

  /** What the server should end up in: only the last one of a kind counts. */
  const STATES: set<Kind> := {
    MoveChannel, SetMuted, SetAway, SetNickname, RequestFileList,
    FileInfoRequest, SetChannelCommander, SubscribeChannel, ListBans, SetTalker}

  /** What users write and administrators do: each of these counts. */
  const CONTENT: set<Kind> := {
    SendMessage, PokeClient, KickClient, BanClient, BanUid, BanAddress, BanDelete,
    ChannelDescription, AddClientToGroup, RemoveClientFromGroup, ComplainAdd,
    DownloadFile, UploadFile, DeleteFile, CreateDirectory, RenameFile, UseToken,
    CreateChannel, EditChannel, DeleteChannel, MoveChannelTree, Disconnect, SendAudio}

  lemma EveryKindIsEither(kind: Kind)
    ensures kind in STATES <==> kind !in CONTENT
    ensures kind in STATES <==> IsState(kind)
  {
  }

  function OfKind(kind: Kind, commands: seq<Command>): seq<Command> {
    if commands == [] then []
    else
      var last := commands[|commands| - 1];
      OfKind(kind, commands[..|commands| - 1]) + if last.kind == kind then [last] else []
  }

  lemma {:induction false} OfKindConcat(kind: Kind, a: seq<Command>, b: seq<Command>)
    ensures OfKind(kind, a + b) == OfKind(kind, a) + OfKind(kind, b)
  {
    if b == [] {
      assert a + b == a;
    } else {
      assert (a + b)[..|a + b| - 1] == a + b[..|b| - 1];
      OfKindConcat(kind, a, b[..|b| - 1]);
    }
  }

  lemma OfKindOne(kind: Kind, command: Command)
    ensures OfKind(kind, [command]) == if command.kind == kind then [command] else []
  {
    assert [command][..0] == [];
  }

  /** A state replaces the first waiting one of its kind, in its place; any other command goes to the
      end, and into a full queue at the cost of the front. */
  lemma EnqueueMeans(queue: seq<Command>, command: Command, i: nat)
    ensures command.kind in STATES && i < |queue| && queue[i].kind == command.kind
            && (forall k :: 0 <= k < i ==> queue[k].kind != command.kind) ==>
              Enqueued(queue, command) == Queued(queue[i := command], [], [queue[i]])
    ensures command.kind in CONTENT || (forall k :: 0 <= k < |queue| ==> queue[k].kind != command.kind) ==>
              Enqueued(queue, command)
              == if |queue| < 32 then Queued(queue + [command], [], [])
                 else Queued(queue[1..] + [command], [queue[0]], [])
  {
    EveryKindIsEither(command.kind);
    SlotIsFirst(command, queue, 0);
  }

  lemma ReplacedKeepsOthers(kind: Kind, commands: seq<Command>, i: nat, command: Command)
    requires i < |commands| && commands[i].kind == command.kind && command.kind != kind
    ensures OfKind(kind, commands[i := command]) == OfKind(kind, commands)
  {
    assert commands == commands[..i] + ([commands[i]] + commands[i + 1..]);
    assert commands[i := command] == commands[..i] + ([command] + commands[i + 1..]);
    OfKindConcat(kind, commands[..i], [commands[i]] + commands[i + 1..]);
    OfKindConcat(kind, commands[..i], [command] + commands[i + 1..]);
    OfKindConcat(kind, [commands[i]], commands[i + 1..]);
    OfKindConcat(kind, [command], commands[i + 1..]);
    OfKindOne(kind, commands[i]);
    OfKindOne(kind, command);
  }

  lemma ContentTrace(s: State, step: Step, kind: Kind)
    requires kind in CONTENT
    ensures OfKind(kind, Trace(Next(s, step))) == OfKind(kind, Trace(s)) + OfKind(kind, GivenBy(step))
    ensures OfKind(kind, Next(s, step).superseded) == OfKind(kind, s.superseded)
  {
    hide OfKind, Refilled, Degraded, FloodCost;
    EveryKindIsEither(kind);
    var e := Next(s, step);
    OfKindConcat(kind, Trace(s), GivenBy(step));
    if step.Enqueue? && Slot(step.command, s.queue, 0) < |s.queue| {
      var slot := Slot(step.command, s.queue, 0);
      assert Trace(e) == Trace(s)[|s.left| + slot := step.command];
      ReplacedKeepsOthers(kind, Trace(s), |s.left| + slot, step.command);
      OfKindOne(kind, step.command);
      OfKindConcat(kind, s.superseded, [s.queue[slot]]);
      OfKindOne(kind, s.queue[slot]);
      assert OfKind(kind, Trace(s)) + [] == OfKind(kind, Trace(s));
    } else {
      assert Trace(e) == Trace(s) + GivenBy(step);
      assert s.superseded + [] == s.superseded;
    }
  }

  /** Over every run the commands of each kind that counts leave or wait exactly as they were given, in
      order, and none of them is superseded. */
  lemma {:induction false} ContentIsKept(s: State, steps: seq<Step>, kind: Kind)
    requires kind in CONTENT
    ensures var e := After(s, steps);
            && OfKind(kind, e.left + e.queue) == OfKind(kind, s.left + s.queue) + OfKind(kind, Given(steps))
            && OfKind(kind, e.superseded) == OfKind(kind, s.superseded)
  {
    hide OfKind, Next, GivenBy;
    if steps == [] {
      NoneOfKind(kind);
    } else {
      var before := steps[..|steps| - 1];
      ContentIsKept(s, before, kind);
      ContentTrace(After(s, before), steps[|steps| - 1], kind);
      OfKindConcat(kind, Given(before), GivenBy(steps[|steps| - 1]));
    }
  }

  lemma NoneOfKind(kind: Kind)
    ensures OfKind(kind, []) == []
  {
  }
}
