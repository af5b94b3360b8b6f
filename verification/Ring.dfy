/**
 The shared single-producer single-consumer ring: every cursor load and store and every word of
 a slot is its own step, so producer and consumer act on stale views of each other. The ring is
 proved to refine a bounded first-in first-out queue.
 */
module Ring {

  type Word = nat

  const HeaderWords: nat := 4
  const PayloadLimit: nat := 128

  datatype Message = Message(kind: nat, source: nat, target: nat, payload: seq<Word>)

  /** The slot image of a message: header words, then the payload. */
  function Encode(m: Message): (w: seq<Word>)
    ensures |w| == HeaderWords + |m.payload|
  {
    [m.kind, m.source, m.target, |m.payload|] + m.payload
  }

  function Decode(w: seq<Word>): Message
    requires |w| >= HeaderWords
  {
    Message(w[0], w[1], w[2], w[HeaderWords..])
  }

  lemma DecodeEncode(m: Message)
    ensures Decode(Encode(m)) == m
  { }

  /** Words past the message are whatever an earlier message left there. */
  datatype Slot = Slot(sequence: nat, words: seq<Word>)

  datatype Producer =
    | Ready
    | Loading(message: Message)
    | HasTail(message: Message, tail: nat)
    | Writing(message: Message, tail: nat, done: nat)
    | Sequenced(message: Message, tail: nat)

  datatype Consumer =
    | Idle
    | HasHead(head: nat)
    | HasBoth(head: nat, tail: nat)
    | Reading(head: nat, words: seq<Word>)

  datatype Answer = Full | Empty | Unsequenced | Corrupt | Popped(message: Message)

  /** `sent` and `received` record completed pushes and pops; `answers` every other answer given. */
  datatype Sys = Sys(
    capacity: nat, source: nat, target: nat,
    head: nat, tail: nat, slots: seq<Slot>,
    producer: Producer, consumer: Consumer,
    sent: seq<Message>, received: seq<Message>, answers: seq<Answer>)

  datatype Action =
    | BeginPush(message: Message)
    | LoadTail
    | LoadHead
    | StoreWord
    | StoreSequence
    | StoreTail
    | BeginPop
    | PeekTail
    | CheckSequence
    | ReadWord
    | StoreHead

  predicate Valid(s: Sys, m: Message) {
    m.kind != 0 && m.source == s.source && m.target == s.target && |m.payload| <= PayloadLimit
  }

  /** What the consumer checks once the header words are in. */
  predicate HeaderOk(s: Sys, w: seq<Word>)
    requires |w| >= HeaderWords
  {
    w[0] != 0 && w[1] == s.source && w[2] == s.target && w[3] <= PayloadLimit
  }

  predicate Enabled(s: Sys, x: Action) {
    match x
    case BeginPush(m) => s.producer.Ready? && Valid(s, m)
    case LoadTail => s.producer.Loading?
    case LoadHead => s.producer.HasTail?
    case StoreWord => s.producer.Writing? && s.producer.done < |Encode(s.producer.message)|
    case StoreSequence => s.producer.Writing? && s.producer.done == |Encode(s.producer.message)|
    case StoreTail => s.producer.Sequenced?
    case BeginPop => s.consumer.Idle?
    case PeekTail => s.consumer.HasHead?
    case CheckSequence => s.consumer.HasBoth?
    case ReadWord => s.consumer.Reading? && !ReadAll(s.consumer.words)
    case StoreHead => s.consumer.Reading? && ReadAll(s.consumer.words)
  }

  predicate ReadAll(w: seq<Word>) {
    |w| >= HeaderWords && |w| == HeaderWords + w[3]
  }

  function Index(s: Sys, k: nat): nat
    requires s.capacity > 0
  {
    k % s.capacity
  }

  predicate Shape(s: Sys) {
    s.capacity > 0 && |s.slots| == s.capacity
    && forall i :: 0 <= i < |s.slots| ==> |s.slots[i].words| == HeaderWords + PayloadLimit
  }

  function NextProducer(s: Sys, x: Action): Sys
    requires Enabled(s, x) && Shape(s)
  {
    match x
    case BeginPush(m) => s.(producer := Loading(m))
    case LoadTail => s.(producer := HasTail(s.producer.message, s.tail))
    case LoadHead =>
      var p := s.producer;
      if p.tail >= s.head + s.capacity then s.(producer := Ready, answers := s.answers + [Full])
      else s.(producer := Writing(p.message, p.tail, 0))
    case StoreWord =>
      var p, i := s.producer, Index(s, s.producer.tail);
      var slot := s.slots[i];
      if p.done < |slot.words| then
        s.(slots := s.slots[i := slot.(words := slot.words[p.done := Encode(p.message)[p.done]])],
           producer := p.(done := p.done + 1))
      else s
    case StoreSequence =>
      var p, i := s.producer, Index(s, s.producer.tail);
      s.(slots := s.slots[i := s.slots[i].(sequence := p.tail + 1)], producer := Sequenced(p.message, p.tail))
    case StoreTail =>
      var p := s.producer;
      s.(tail := p.tail + 1, producer := Ready, sent := s.sent + [p.message])
    case _ => s
  }

  function Done(s: Sys, a: Answer): Sys {
    s.(consumer := Idle, answers := s.answers + [a])
  }

  function NextConsumer(s: Sys, x: Action): Sys
    requires Enabled(s, x) && Shape(s)
  {
    match x
    case BeginPop => s.(consumer := HasHead(s.head))
    case PeekTail =>
      var c := s.consumer;
      if c.head == s.tail then Done(s, Empty)
      else if s.tail < c.head || s.tail > c.head + s.capacity then Done(s, Corrupt)
      else s.(consumer := HasBoth(c.head, s.tail))
    case CheckSequence =>
      var c := s.consumer;
      if s.slots[Index(s, c.head)].sequence != c.head + 1 then Done(s, Unsequenced)
      else s.(consumer := Reading(c.head, []))
    case ReadWord =>
      var c := s.consumer;
      var words := s.slots[Index(s, c.head)].words;
      if |c.words| >= |words| then s
      else
        var w := c.words + [words[|c.words|]];
        if |w| == HeaderWords && !HeaderOk(s, w) then Done(s, Corrupt) else s.(consumer := c.(words := w))
    case StoreHead =>
      var c := s.consumer;
      Done(s, Popped(Decode(c.words))).(head := c.head + 1, received := s.received + [Decode(c.words)])
    case _ => s
  }

  predicate Produces(x: Action) {
    x.BeginPush? || x.LoadTail? || x.LoadHead? || x.StoreWord? || x.StoreSequence? || x.StoreTail?
  }

  function Next(s: Sys, x: Action): Sys
    requires Enabled(s, x) && Shape(s)
  {
    if Produces(x) then NextProducer(s, x) else NextConsumer(s, x)
  }

  function Init(capacity: nat, source: nat, target: nat): Sys {
    Sys(capacity, source, target, 0, 0, seq(capacity, _ => Slot(0, seq(HeaderWords + PayloadLimit, _ => 0))),
        Ready, Idle, [], [], [])
  }

  // ------------------------------------------------------------------ invariant

  /** The slot of queue position `k` carries message `m`, published. */
  predicate Carries(s: Sys, k: nat, m: Message)
    requires Shape(s)
  {
    var slot := s.slots[Index(s, k)];
    slot.sequence == k + 1 && |Encode(m)| <= |slot.words| && slot.words[..|Encode(m)|] == Encode(m)
  }

  predicate Cursors(s: Sys) {
    && s.head <= s.tail <= s.head + s.capacity
    && |s.sent| == s.tail && |s.received| == s.head
    && (forall k :: 0 <= k < |s.received| ==> s.received[k] == s.sent[k])
    && (forall k :: 0 <= k < |s.sent| ==> Valid(s, s.sent[k]))
  }

  predicate Stored(s: Sys)
    requires Shape(s) && Cursors(s)
  {
    forall k :: s.head <= k < s.tail ==> Carries(s, k, s.sent[k])
  }

  predicate ProducerOk(s: Sys)
    requires Shape(s)
  {
    match s.producer
    case Ready => true
    case Loading(m) => Valid(s, m)
    case HasTail(m, t) => Valid(s, m) && t == s.tail
    case Writing(m, t, n) =>
      && Valid(s, m) && t == s.tail < s.head + s.capacity && n <= |Encode(m)|
      && s.slots[Index(s, t)].words[..n] == Encode(m)[..n]
    case Sequenced(m, t) => Valid(s, m) && t == s.tail < s.head + s.capacity && Carries(s, t, m)
  }

  predicate ConsumerOk(s: Sys)
    requires Cursors(s)
  {
    match s.consumer
    case Idle => true
    case HasHead(h) => h == s.head
    case HasBoth(h, t) => h == s.head < t <= s.tail
    case Reading(h, w) =>
      && h == s.head < s.tail && |w| <= |Encode(s.sent[h])| && w == Encode(s.sent[h])[..|w|]
  }

  predicate Inv(s: Sys) {
    Shape(s) && Cursors(s) && Stored(s) && ProducerOk(s) && ConsumerOk(s) && Corrupt !in s.answers && Unsequenced !in s.answers
  }

  /** Positions less than a lap apart use different slots. */
  lemma DifferentSlots(a: nat, b: nat, n: nat)
    requires a < b < a + n
    ensures a % n != b % n
  {
    if a % n == b % n {
      var qa, qb := a / n, b / n;
      assert b - a == (qb - qa) * n by {
        assert a == qa * n + a % n && b == qb * n + b % n;
      }
      Multiple(qb - qa, n);
    }
  }

  lemma Multiple(k: int, n: nat)
    ensures k >= 1 ==> k * n >= n
    ensures k <= 0 ==> k * n <= 0
  {
    if k >= 1 { assert (k - 1) * n >= 0; }
  }

  /** Writing the slot of the tail position leaves every queued message in place. */
  lemma TailSlotFree(s: Sys, s': Sys, slot: Slot)
    requires Shape(s) && Cursors(s) && Stored(s) && s.tail < s.head + s.capacity
    requires |slot.words| == HeaderWords + PayloadLimit
    requires s'.capacity == s.capacity && s'.slots == s.slots[Index(s, s.tail) := slot]
    requires s'.head == s.head && s'.tail == s.tail && s'.sent == s.sent && s'.received == s.received && Shape(s') && Cursors(s')
    ensures Stored(s')
  {
    hide Encode;
    forall k | s'.head <= k < s'.tail ensures Carries(s', k, s'.sent[k]) {
      assert Carries(s, k, s.sent[k]);
      DifferentSlots(k, s.tail, s.capacity);
    }
  }

  lemma ProducerKeeps(s: Sys, x: Action)
    requires Inv(s) && Enabled(s, x) && Produces(x)
    ensures Inv(NextProducer(s, x))
  {
    hide Encode;
    var s' := NextProducer(s, x);
    var i := Index(s, s.tail);
    if x.StoreWord? || x.StoreSequence? {
      hide Index;
      TailSlotFree(s, s', s'.slots[i]);
    } else if x.StoreTail? {
      assert Carries(s, s.tail, s.producer.message);
      forall k | s'.head <= k < s'.tail ensures Carries(s', k, s'.sent[k]) {
        if k < s.tail { assert Carries(s, k, s.sent[k]); }
      }
    } else {
      forall k | s'.head <= k < s'.tail ensures Carries(s', k, s'.sent[k]) { assert Carries(s, k, s.sent[k]); }
    }
  }

  /** A complete image says so itself. */
  lemma WholeIsAll(w: seq<Word>, m: Message)
    requires |w| <= |Encode(m)| && w == Encode(m)[..|w|]
    ensures |w| == |Encode(m)| ==> ReadAll(w)
  {
    if |w| == |Encode(m)| { assert w == Encode(m); }
  }

  lemma ReadWordKeeps(s: Sys)
    requires Inv(s) && Enabled(s, ReadWord)
    ensures Inv(NextConsumer(s, ReadWord))
    ensures NextConsumer(s, ReadWord).consumer.Reading?
  {
    var c, m := s.consumer, s.sent[s.head];
    assert Carries(s, s.head, m);
    var words := s.slots[Index(s, c.head)].words;
    assert Valid(s, m);
    hide Index;
    WholeIsAll(c.words, m);
    assert |c.words| < |Encode(m)|;
    assert words[|c.words|] == Encode(m)[|c.words|] by { assert words[..|Encode(m)|][|c.words|] == Encode(m)[|c.words|]; }
    var w := c.words + [words[|c.words|]];
    assert w == Encode(m)[..|w|];
    hide Stored;
  }

  lemma StoreHeadKeeps(s: Sys)
    requires Inv(s) && Enabled(s, StoreHead)
    ensures Inv(NextConsumer(s, StoreHead))
    ensures Decode(s.consumer.words) == s.sent[s.head]
  {
    var s' := NextConsumer(s, StoreHead);
    var w, m := s.consumer.words, s.sent[s.head];
    assert w == Encode(m)[..|w|] && w[3] == Encode(m)[3];
    assert w == Encode(m);
    DecodeEncode(m);
    hide Encode, Decode;
    forall k | s'.head <= k < s'.tail ensures Carries(s', k, s'.sent[k]) { assert Carries(s, k, s.sent[k]); }
  }

  lemma ConsumerKeeps(s: Sys, x: Action)
    requires Inv(s) && Enabled(s, x) && !Produces(x)
    ensures Inv(NextConsumer(s, x))
  {
    if x.ReadWord? {
      ReadWordKeeps(s);
    } else if x.StoreHead? {
      StoreHeadKeeps(s);
    } else {
      hide Encode, Index, Decode;
      var s' := NextConsumer(s, x);
      if s.consumer.HasBoth? { assert Carries(s, s.head, s.sent[s.head]); }
      forall k | s'.head <= k < s'.tail ensures Carries(s', k, s'.sent[k]) { assert Carries(s, k, s.sent[k]); }
    }
  }

  lemma StepKeeps(s: Sys, x: Action)
    requires Inv(s) && Enabled(s, x)
    ensures Inv(Next(s, x))
  {
    hide Inv, Enabled;
    if Produces(x) { ProducerKeeps(s, x); } else { ConsumerKeeps(s, x); }
  }

  lemma InitInv(capacity: nat, source: nat, target: nat)
    requires capacity > 0
    ensures Inv(Init(capacity, source, target))
  { }

  // ------------------------------------------------------------------ runs

  ghost predicate Run(run: seq<Sys>, actions: seq<Action>) {
    && |run| == |actions| + 1
    && (forall i :: 0 <= i < |actions| ==> Shape(run[i]) && Enabled(run[i], actions[i]) && run[i + 1] == Next(run[i], actions[i]))
  }

  lemma {:induction false} RunKeeps(run: seq<Sys>, actions: seq<Action>, capacity: nat, source: nat, target: nat, i: nat)
    requires capacity > 0 && Run(run, actions) && run[0] == Init(capacity, source, target) && i < |run|
    ensures Inv(run[i])
  {
    hide Inv, Next, Enabled, Init;
    if i == 0 {
      InitInv(capacity, source, target);
    } else {
      RunKeeps(run, actions, capacity, source, target, i - 1);
      StepKeeps(run[i - 1], actions[i - 1]);
    }
  }

  /** The abstract queue: pushed and not yet popped. */
  function Queue(s: Sys): seq<Message>
    requires Cursors(s)
  {
    s.sent[s.head..s.tail]
  }

  /**
   Each step of the ring is a step of a bounded FIFO queue: a completed push appends its message
   to a queue that is not full, a completed pop removes and returns the front, and every other
   step leaves the queue alone. `Full` is answered only to a full queue, `Empty` to an empty one.
   */
  lemma StepRefines(s: Sys, x: Action, s': Sys)
    requires Inv(s) && Enabled(s, x) && s' == Next(s, x)
    ensures Cursors(s')
    ensures x.StoreTail? ==> |Queue(s)| < s.capacity && Queue(s') == Queue(s) + [s.producer.message]
    ensures x.StoreHead? ==> Queue(s) != [] && Queue(s') == Queue(s)[1..] && s'.received == s.received + [Queue(s)[0]]
    ensures !x.StoreTail? && !x.StoreHead? ==> Queue(s') == Queue(s) && s'.received == s.received
    ensures AnswerFits(s, x, s')
  {
    StepKeeps(s, x);
    AnswersFit(s, x, s');
    if x.StoreHead? { StoreHeadKeeps(s); }
    hide Encode, Decode, Stored, Index, Carries, ReadAll, AnswerFits;
  }

  /** At most one answer is given by a step, and it is the right one for the queue at that moment. */
  ghost predicate AnswerFits(s: Sys, x: Action, s': Sys)
    requires Cursors(s)
  {
    || s'.answers == s.answers
    || (x.StoreHead? && Queue(s) != [] && s'.answers == s.answers + [Popped(Queue(s)[0])])
    || (x.LoadHead? && |Queue(s)| == s.capacity && s'.answers == s.answers + [Full])
    || (x.PeekTail? && Queue(s) == [] && s'.answers == s.answers + [Empty])
  }

  lemma AnswersFit(s: Sys, x: Action, s': Sys)
    requires Inv(s) && Enabled(s, x) && s' == Next(s, x)
    ensures AnswerFits(s, x, s')
  {
    if x.StoreHead? { StoreHeadKeeps(s); }
    if x.CheckSequence? { SequenceMatches(s); }
    if x.ReadWord? { ReadWordKeeps(s); }
    hide Encode, Decode, Stored, Index, Carries, ReadAll;
  }

  lemma SequenceMatches(s: Sys)
    requires Inv(s) && s.consumer.HasBoth?
    ensures s.slots[Index(s, s.consumer.head)].sequence == s.consumer.head + 1
  {
    assert Carries(s, s.head, s.sent[s.head]);
  }

  /** In every reachable state the popped messages are a prefix of the pushed ones, with at most `capacity` between. */
  lemma PoppedIsPrefix(run: seq<Sys>, actions: seq<Action>, capacity: nat, source: nat, target: nat, i: nat)
    requires capacity > 0 && Run(run, actions) && run[0] == Init(capacity, source, target) && i < |run|
    ensures run[i].received <= run[i].sent && |run[i].sent| - |run[i].received| <= run[i].capacity
    ensures Corrupt !in run[i].answers && Unsequenced !in run[i].answers
  {
    RunKeeps(run, actions, capacity, source, target, i);
  }

  /** The slot being written is never the slot being read. */
  lemma WriteReadApart(run: seq<Sys>, actions: seq<Action>, capacity: nat, source: nat, target: nat, i: nat)
    requires capacity > 0 && Run(run, actions) && run[0] == Init(capacity, source, target) && i < |run|
    requires run[i].producer.Writing? || run[i].producer.Sequenced?
    requires run[i].consumer.Reading? || run[i].consumer.HasBoth?
    ensures run[i].capacity > 0 && Index(run[i], run[i].producer.tail) != Index(run[i], run[i].consumer.head)
  {
    RunKeeps(run, actions, capacity, source, target, i);
    var s := run[i];
    hide Stored, Encode;
    DifferentSlots(s.head, s.tail, s.capacity);
  }

  // ------------------------------------------------------------------ placement

  const MaxHosts: nat := 64
  const MaxU64: nat := 0xFFFF_FFFF_FFFF_FFFF
  const MaxU32: nat := 0xFFFF_FFFF
  const RegionHeaderBytes: nat := 64
  const QueueHeaderBytes: nat := 192
  const SlotBytes: nat := 192

  datatype Option<+T> = None | Some(value: T)

  function QueueCount(hosts: nat): nat {
    if hosts == 0 then 0 else hosts * (hosts - 1)
  }

  function Stride(capacity: nat): nat {
    QueueHeaderBytes + capacity * SlotBytes
  }

  function RequiredBytes(hosts: nat, capacity: nat): Option<nat> {
    if hosts == 0 || hosts > MaxHosts || capacity == 0 || capacity > MaxU32 then None
    else if capacity > (MaxU64 - QueueHeaderBytes) / SlotBytes then None
    else if QueueCount(hosts) != 0 && Stride(capacity) > (MaxU64 - RegionHeaderBytes) / QueueCount(hosts) then None
    else Some(RegionHeaderBytes + QueueCount(hosts) * Stride(capacity))
  }

  function PairIndex(hosts: nat, producer: nat, consumer: nat): Option<nat> {
    if producer >= hosts || consumer >= hosts || producer == consumer then None
    else Some(producer * (hosts - 1) + (if consumer < producer then consumer else consumer - 1))
  }

  /** Within the accepted dimensions the size never overflows: only the dimensions are refused. */
  lemma SizeFits(hosts: nat, capacity: nat)
    ensures RequiredBytes(hosts, capacity).Some? <==> 0 < hosts <= MaxHosts && 0 < capacity <= MaxU32
    ensures RequiredBytes(hosts, capacity).Some? ==> RequiredBytes(hosts, capacity).value <= MaxU64
    ensures RequiredBytes(hosts, capacity).Some? ==> RequiredBytes(hosts, capacity).value == 64 + hosts * (hosts - 1) * (192 + capacity * 192)
  {
    if 0 < hosts <= MaxHosts && 0 < capacity <= MaxU32 {
      var n, stride := QueueCount(hosts), Stride(capacity);
      assert n <= 64 * 63 by { Products(hosts, 64, hosts - 1, 63); }
      Products(n, 64 * 63, stride, QueueHeaderBytes + MaxU32 * SlotBytes);
      if n != 0 { AtMostQuotient(stride, n, MaxU64 - RegionHeaderBytes); }
    }
  }

  lemma Products(a: nat, a': nat, b: nat, b': nat)
    requires a <= a' && b <= b'
    ensures a * b <= a' * b'
  {
    assert a' * b' - a * b == (a' - a) * b' + a * (b' - b);
  }

  lemma AtMostQuotient(x: nat, n: nat, limit: nat)
    requires n > 0 && n * x <= limit
    ensures x <= limit / n
  {
    var q := limit / n;
    assert limit == q * n + limit % n;
    Multiple(x - q, n);
    assert (x - q) * n == x * n - q * n;
  }

  /** Every directed pair of distinct hosts has its own index, and every index in range belongs to a pair. */
  lemma PairsDistinct(hosts: nat, p: nat, c: nat, p': nat, c': nat)
    requires p < hosts && c < hosts && p != c && p' < hosts && c' < hosts && p' != c'
    ensures PairIndex(hosts, p, c).value < QueueCount(hosts)
    ensures PairIndex(hosts, p, c) == PairIndex(hosts, p', c') ==> p == p' && c == c'
  {
    var n := hosts - 1;
    var r := if c < p then c else c - 1;
    var r' := if c' < p' then c' else c' - 1;
    Products(p, hosts - 1, n, n);
    assert hosts * n == (hosts - 1) * n + n;
    if p * n + r == p' * n + r' {
      QuotientUnique(p, r, n);
      QuotientUnique(p', r', n);
    }
  }

  lemma QuotientUnique(q: nat, r: nat, n: nat)
    requires r < n
    ensures (q * n + r) / n == q && (q * n + r) % n == r
  {
    var x := q * n + r;
    var q', r' := x / n, x % n;
    assert x == q' * n + r';
    assert (q - q') * n == r' - r;
    Multiple(q - q', n);
    Multiple(q' - q, n);
    assert (q' - q) * n == r - r';
  }

  lemma PairOf(hosts: nat, index: nat) returns (p: nat, c: nat)
    requires index < QueueCount(hosts)
    ensures p < hosts && c < hosts && PairIndex(hosts, p, c) == Some(index)
  {
    var n := hosts - 1;
    var q, r := index / n, index % n;
    assert index == q * n + r;
    if q >= hosts {
      Products(hosts, q, n, n);
    }
    p, c := q, if r < q then r else r + 1;
  }

  /** The queues of two different pairs occupy disjoint ranges inside the region. */
  lemma QueuesApart(hosts: nat, capacity: nat, p: nat, c: nat, p': nat, c': nat)
    requires RequiredBytes(hosts, capacity).Some?
    requires p < hosts && c < hosts && p != c && p' < hosts && c' < hosts && p' != c' && (p, c) != (p', c')
    ensures var i, j := PairIndex(hosts, p, c).value, PairIndex(hosts, p', c').value;
      var a, b := RegionHeaderBytes + i * Stride(capacity), RegionHeaderBytes + j * Stride(capacity);
      && a + Stride(capacity) <= RequiredBytes(hosts, capacity).value
      && (a + Stride(capacity) <= b || b + Stride(capacity) <= a)
  {
    PairsDistinct(hosts, p, c, p', c');
    var i, j := PairIndex(hosts, p, c).value, PairIndex(hosts, p', c').value;
    var size := RegionHeaderBytes + QueueCount(hosts) * Stride(capacity);
    assert RequiredBytes(hosts, capacity).value == size;
    PairsDistinct(hosts, p', c', p, c);
    hide PairIndex, Stride, RequiredBytes;
    RangesApart(i, j, QueueCount(hosts), Stride(capacity));
  }

  lemma RangesApart(i: nat, j: nat, n: nat, stride: nat)
    requires i < n && j < n && i != j
    ensures i * stride + stride <= n * stride
    ensures i * stride + stride <= j * stride || j * stride + stride <= i * stride
  {
    Products(i + 1, n, stride, stride);
    assert (i + 1) * stride == i * stride + stride;
    Multiple(j - i, stride);
    Multiple(i - j, stride);
    assert (j - i) * stride == j * stride - i * stride;
    assert (i - j) * stride == i * stride - j * stride;
  }
}
