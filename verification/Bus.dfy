/**
 The bounded queue of a subscriber to the event bus, and the fan-out of a published event.
 */
module Bus {
  import opened Wrappers
  import opened Values

  datatype Event = Event(topic: string, data: SendValue, timestamp: real)

  datatype OnFull = DropOldest | Error

  /** What overflowed: the events and bytes queued at that moment. */
  datatype Overflow = Overflow(events: nat, bytes: nat)

  datatype Config = Config(maxQueue: nat, maxBytes: nat, onFull: OnFull)

  const MAX_QUEUE_CEILING := 1_000_000
  const MAX_BYTES_CEILING := 1024 * 1024 * 1024

  // ----- the size of a payload -----

  function CharSize(c: char): nat {
    if (c as int) < 0x80 then 1 else if (c as int) < 0x800 then 2 else if (c as int) < 0x10000 then 3 else 4
  }

  function TextSize(s: string): nat {
    if s == [] then 0 else CharSize(s[0]) + TextSize(s[1..])
  }

  function LabelsSize(labels: seq<string>): nat {
    if labels == [] then 0 else TextSize(labels[0]) + LabelsSize(labels[1..])
  }

  function SendSize(v: SendValue): nat {
    match v
    case Number(_) => 16
    case Text(s) => TextSize(s)
    case Bool(_) => 1
    case Nothing => 1
    case List(items) => ItemsSize(items) + 8
    case Map(pairs) => PairsSize(pairs) + 8
    case Bytes(b) => |b|
    case Complex(_, _) => 16
    case Array(_, byteLen) => byteLen + 8
    case Time(_) => 24
    case Rng(_, name) => 96 + TextSize(name)
    case Private(labels, inner) => SendSize(inner) + LabelsSize(labels)
  }

  function ItemsSize(items: seq<SendValue>): nat {
    if items == [] then 0 else SendSize(items[0]) + ItemsSize(items[1..])
  }

  function PairsSize(pairs: seq<Pair>): nat {
    if pairs == [] then 0
    else TextSize(pairs[0].key) + SendSize(pairs[0].value) + PairsSize(pairs[1..])
  }

  /** The bytes of a run of events. */
  function SizeOf(events: seq<Event>): nat {
    if events == [] then 0 else SendSize(events[0].data) + SizeOf(events[1..])
  }

  lemma {:induction false} BytesConcat(a: seq<Event>, b: seq<Event>)
    ensures SizeOf(a + b) == SizeOf(a) + SizeOf(b)
  {
    if a == [] {
      assert a + b == b;
    } else {
      assert (a + b)[1..] == a[1..] + b;
      BytesConcat(a[1..], b);
    }
  }

  lemma BytesOne(e: Event)
    ensures SizeOf([e]) == SendSize(e.data)
  {
    assert [e][1..] == [];
  }

  // ----- what it weighs -----

  /** The UTF-8 of a character, as RFC 3629 (section 3) has it. */
  function Utf8(c: char): seq<nat> {
    var n := c as int;
    if n < 0x80 then [n]
    else if n < 0x800 then [0xc0 + n / 0x40, 0x80 + n % 0x40]
    else if n < 0x1_0000 then [0xe0 + n / 0x1000, 0x80 + n / 0x40 % 0x40, 0x80 + n % 0x40]
    else [0xf0 + n / 0x4_0000, 0x80 + n / 0x1000 % 0x40, 0x80 + n / 0x40 % 0x40, 0x80 + n % 0x40]
  }

  function Utf8Text(s: string): seq<nat> {
    if s == [] then [] else Utf8(s[0]) + Utf8Text(s[1..])
  }

  /** A text weighs its bytes. */
  lemma {:induction false} TextWeighsItsBytes(s: string)
    ensures SendSize(Text(s)) == |Utf8Text(s)|
  {
    if s != [] {
      TextWeighsItsBytes(s[1..]);
    }
  }

  /** A list weighs eight bytes and what is in it, a map its keys too, and a label adds its bytes. */
  lemma {:induction false} PartsWeighTogether(a: seq<SendValue>, b: seq<SendValue>, p: seq<Pair>, q: seq<Pair>)
    ensures SendSize(List(a + b)) + 8 == SendSize(List(a)) + SendSize(List(b))
    ensures SendSize(Map(p + q)) + 8 == SendSize(Map(p)) + SendSize(Map(q))
    decreases |a| + |p|
  {
    if a != [] {
      assert (a + b)[1..] == a[1..] + b;
      PartsWeighTogether(a[1..], b, p, q);
    } else {
      assert a + b == b;
      if p != [] {
        assert (p + q)[1..] == p[1..] + q;
        PartsWeighTogether(a, b, p[1..], q);
      } else {
        assert p + q == q;
      }
    }
  }

  lemma OneWeighs(v: SendValue, key: string, mark: string, bytes: seq<nat>, n: int, m: nat)
    ensures SendSize(Number(n)) == 16 && SendSize(Bool(n > 0)) == 1 && SendSize(Nothing) == 1
    ensures SendSize(Complex(n, n)) == 16 && SendSize(Time(n)) == 24
    ensures SendSize(Array(bytes, m)) == m + 8 && SendSize(Rng(m, key)) == 96 + |Utf8Text(key)|
    ensures SendSize(List([v])) == 8 + SendSize(v)
    ensures SendSize(Map([Pair(key, v)])) == 8 + |Utf8Text(key)| + SendSize(v)
    ensures SendSize(Private([mark], v)) == |Utf8Text(mark)| + SendSize(v)
    ensures SendSize(Bytes(bytes)) == |bytes|
  {
    TextWeighsItsBytes(key);
    TextWeighsItsBytes(mark);
    var items, pairs, marks := [v], [Pair(key, v)], [mark];
    assert items[1..] == [] && pairs[1..] == [] && marks[1..] == [];
    assert ItemsSize(items) == SendSize(v) + ItemsSize(items[1..]);
    assert PairsSize(pairs) == TextSize(key) + SendSize(v) + PairsSize(pairs[1..]);
    assert LabelsSize(marks) == TextSize(mark) + LabelsSize(marks[1..]);
  }

  // ---------------------------------------------------------------------------------------------
  // What a push and a receive do
  // ---------------------------------------------------------------------------------------------

  datatype Queue = Queue(events: seq<Event>, queuedBytes: nat, error: Option<Overflow>, dropped: nat, received: nat)

  function Empty(): Queue {
    Queue([], 0, None, 0, 0)
  }

  /** Whether an event of that size still fits behind these. */
  predicate Fits(cfg: Config, events: seq<Event>, size: nat) {
    |events| < cfg.maxQueue && SizeOf(events) + size <= cfg.maxBytes
  }

  /** The fewest events to drop from the front so that the new one fits, or all of them. */
  function ToDrop(cfg: Config, events: seq<Event>, size: nat): (k: nat)
    ensures k <= |events|
    ensures k < |events| ==> Fits(cfg, events[k..], size)
    ensures forall j :: 0 <= j < k ==> !Fits(cfg, events[j..], size)
  {
    if events == [] || Fits(cfg, events, size) then 0
    else
      var k := ToDrop(cfg, events[1..], size) + 1;
      assert forall j :: 0 < j <= |events| ==> events[1..][j - 1..] == events[j..];
      k
  }

  function Pushed(cfg: Config, q: Queue, e: Event): Queue {
    var size := SendSize(e.data);
    if q.error.Some? then q
    else if Fits(cfg, q.events, size) || cfg.onFull.DropOldest? then
      var k := ToDrop(cfg, q.events, size);
      q.(events := q.events[k..] + [e], queuedBytes := SizeOf(q.events[k..] + [e]), dropped := q.dropped + k,
        received := q.received + 1)
    else q.(events := [], queuedBytes := 0, error := Some(Overflow(|q.events|, SizeOf(q.events))),
      received := q.received + 1)
  }

  datatype Received = Delivered(event: Event) | Failed(overflow: Overflow) | NothingYet

  function Taken(q: Queue): (Received, Queue) {
    if q.events != [] then (Delivered(q.events[0]), q.(events := q.events[1..], queuedBytes := SizeOf(q.events[1..])))
    else if q.error.Some? then (Failed(q.error.value), q.(error := None))
    else (NothingYet, q)
  }

  /** Nothing is dropped or lost exactly when there is room, by count and by bytes, or the queue is empty and drops the
      oldest. */
  lemma LostOnlyWithoutRoom(cfg: Config, q: Queue, e: Event)
    requires q.error.None?
    ensures Pushed(cfg, q, e).events == q.events + [e] <==>
      (|q.events| + 1 <= cfg.maxQueue && SizeOf(q.events) + SendSize(e.data) <= cfg.maxBytes)
      || (q.events == [] && cfg.onFull.DropOldest?)
    ensures Pushed(cfg, q, e).error.Some? <==>
      cfg.onFull.Error? && !(|q.events| + 1 <= cfg.maxQueue && SizeOf(q.events) + SendSize(e.data) <= cfg.maxBytes)
  {
    hide SendSize, SizeOf;
    var k := ToDrop(cfg, q.events, SendSize(e.data));
    assert k > 0 ==> |q.events[k..] + [e]| < |q.events + [e]|;
    assert q.events[0..] == q.events;
  }

  // ---------------------------------------------------------------------------------------------
  // Whole histories
  // ---------------------------------------------------------------------------------------------

  datatype Op = Push(event: Event) | Receive

  /** What became of an event that left the queue: read by the subscriber, dropped as the oldest, or lost when
      the queue overflowed under the error policy. */
  datatype Fate = WasDelivered | WasDropped | WasLost

  datatype Gone = Gone(event: Event, fate: Fate)

  /** A queue with everything it was ever offered (while not failed): what has left it, and what it holds. */
  datatype History = History(queue: Queue, offered: seq<Event>, gone: seq<Gone>)

  function AllGone(events: seq<Event>, fate: Fate): (gone: seq<Gone>)
    ensures |gone| == |events| && forall i :: 0 <= i < |gone| ==> gone[i] == Gone(events[i], fate)
  {
    if events == [] then [] else [Gone(events[0], fate)] + AllGone(events[1..], fate)
  }

  function Next(cfg: Config, h: History, op: Op): History {
    match op
    case Push(e) =>
      var q, size := h.queue, SendSize(e.data);
      if q.error.Some? then h
      else
        var gone :=
          if Fits(cfg, q.events, size) || cfg.onFull.DropOldest? then
            AllGone(q.events[..ToDrop(cfg, q.events, size)], WasDropped)
          else AllGone(q.events + [e], WasLost);
        History(Pushed(cfg, q, e), h.offered + [e], h.gone + gone)
    case Receive =>
      History(Taken(h.queue).1, h.offered,
              if h.queue.events == [] then h.gone else h.gone + [Gone(h.queue.events[0], WasDelivered)])
  }

  function Run(cfg: Config, ops: seq<Op>): History {
    if ops == [] then History(Empty(), [], []) else Next(cfg, Run(cfg, ops[..|ops| - 1]), ops[|ops| - 1])
  }

  function Events(gone: seq<Gone>): seq<Event> {
    if gone == [] then [] else Events(gone[..|gone| - 1]) + [gone[|gone| - 1].event]
  }

  function Count(gone: seq<Gone>, fate: Fate): nat {
    if gone == [] then 0 else Count(gone[..|gone| - 1], fate) + if gone[|gone| - 1].fate == fate then 1 else 0
  }

  /** The queue is within its bounds and its byte count is exact; only an event too big for the queue stands
      above the byte bound, alone. */
  predicate Bounded(cfg: Config, q: Queue) {
    && q.queuedBytes == SizeOf(q.events)
    && |q.events| <= cfg.maxQueue
    && (q.queuedBytes <= cfg.maxBytes || |q.events| == 1)
    && (q.error.Some? ==> q.events == [])
  }

  /** Everything offered left the queue or is in it, in order, and the counters say so. */
  predicate Accounted(cfg: Config, h: History) {
    && h.offered == Events(h.gone) + h.queue.events
    && h.queue.received == |h.offered|
    && h.queue.dropped == Count(h.gone, WasDropped)
    && (cfg.onFull.DropOldest? ==> Count(h.gone, WasLost) == 0 && h.queue.error.None?)
    && (cfg.onFull.Error? ==> h.queue.dropped == 0)
  }

  lemma {:induction false} GoneConcat(a: seq<Gone>, b: seq<Gone>, fate: Fate)
    ensures Events(a + b) == Events(a) + Events(b)
    ensures Count(a + b, fate) == Count(a, fate) + Count(b, fate)
  {
    if b == [] {
      assert a + b == a;
    } else {
      assert (a + b)[..|a + b| - 1] == a + b[..|b| - 1];
      GoneConcat(a, b[..|b| - 1], fate);
    }
  }

  lemma {:induction false} AllGoneCounts(gone: seq<Gone>, events: seq<Event>, fate: Fate, other: Fate)
    requires |gone| == |events| && forall i :: 0 <= i < |gone| ==> gone[i] == Gone(events[i], fate)
    ensures Events(gone) == events && Count(gone, other) == if other == fate then |events| else 0
  {
    if gone != [] {
      AllGoneCounts(gone[..|gone| - 1], events[..|events| - 1], fate, other);
    }
  }

  lemma {:induction false} GoneAdd(gone: seq<Gone>)
    ensures |gone| == Count(gone, WasDelivered) + Count(gone, WasDropped) + Count(gone, WasLost)
    ensures |Events(gone)| == |gone|
  {
    if gone != [] {
      GoneAdd(gone[..|gone| - 1]);
    }
  }

  lemma PushBounded(cfg: Config, q: Queue, e: Event)
    requires cfg.maxQueue >= 1 && Bounded(cfg, q)
    ensures Bounded(cfg, Pushed(cfg, q, e))
  {
    hide SendSize;
    if q.error.None? {
      var k := ToDrop(cfg, q.events, SendSize(e.data));
      BytesConcat(q.events[k..], [e]);
      BytesOne(e);
    }
  }

  lemma TakeBounded(cfg: Config, q: Queue)
    requires Bounded(cfg, q)
    ensures Bounded(cfg, Taken(q).1)
  {
  }

  /** Adding what is gone to what went before keeps the account. */
  lemma GoneMore(cfg: Config, h: History, more: seq<Gone>, events: seq<Event>, fate: Fate)
    requires |more| == |events| && forall i :: 0 <= i < |more| ==> more[i] == Gone(events[i], fate)
    ensures Events(h.gone + more) == Events(h.gone) + events
    ensures forall other :: Count(h.gone + more, other) == Count(h.gone, other) + if other == fate then |events| else 0
  {
    forall other ensures Count(h.gone + more, other) == Count(h.gone, other) + if other == fate then |events| else 0 {
      GoneConcat(h.gone, more, other);
      AllGoneCounts(more, events, fate, other);
    }
    GoneConcat(h.gone, more, fate);
    AllGoneCounts(more, events, fate, fate);
  }

  lemma DropAccounted(cfg: Config, h: History, e: Event, k: nat)
    requires Accounted(cfg, h) && h.queue.error.None? && k <= |h.queue.events| && (cfg.onFull.Error? ==> k == 0)
    ensures var q := h.queue;
      Accounted(cfg, History(
        q.(events := q.events[k..] + [e], queuedBytes := SizeOf(q.events[k..] + [e]), dropped := q.dropped + k,
          received := q.received + 1),
        h.offered + [e], h.gone + AllGone(q.events[..k], WasDropped)))
  {
    hide Events, Count, AllGone, SizeOf;
    var q := h.queue;
    GoneMore(cfg, h, AllGone(q.events[..k], WasDropped), q.events[..k], WasDropped);
    assert q.events == q.events[..k] + q.events[k..];
  }

  lemma LossAccounted(cfg: Config, h: History, e: Event, overflow: Overflow)
    requires Accounted(cfg, h) && cfg.onFull.Error?
    ensures var q := h.queue;
      Accounted(cfg, History(
        q.(events := [], queuedBytes := 0, error := Some(overflow), received := q.received + 1),
        h.offered + [e], h.gone + AllGone(q.events + [e], WasLost)))
  {
    hide Events, Count, AllGone;
    var q := h.queue;
    GoneMore(cfg, h, AllGone(q.events + [e], WasLost), q.events + [e], WasLost);
  }

  lemma PushAccounted(cfg: Config, h: History, e: Event)
    requires Accounted(cfg, h)
    ensures Accounted(cfg, Next(cfg, h, Push(e)))
  {
    hide SendSize, Fits, Accounted, AllGone, SizeOf;
    var q, size := h.queue, SendSize(e.data);
    if q.error.None? {
      if Fits(cfg, q.events, size) || cfg.onFull.DropOldest? {
        if cfg.onFull.Error? {
          FitsDropsNothing(cfg, q.events, size);
        }
        DropAccounted(cfg, h, e, ToDrop(cfg, q.events, size));
      } else {
        LossAccounted(cfg, h, e, Overflow(|q.events|, SizeOf(q.events)));
      }
    }
  }

  lemma FitsDropsNothing(cfg: Config, events: seq<Event>, size: nat)
    requires Fits(cfg, events, size)
    ensures ToDrop(cfg, events, size) == 0
  {
  }

  lemma TakeAccounted(cfg: Config, h: History)
    requires Accounted(cfg, h)
    ensures Accounted(cfg, Next(cfg, h, Receive))
  {
    hide Events, Count, SizeOf, SendSize;
    var q := h.queue;
    if q.events != [] {
      GoneMore(cfg, h, [Gone(q.events[0], WasDelivered)], [q.events[0]], WasDelivered);
      assert q.events == [q.events[0]] + q.events[1..];
    }
  }

  /** After any history of pushes and receives. */
  lemma {:induction false} HistoryHolds(cfg: Config, ops: seq<Op>)
    requires cfg.maxQueue >= 1
    ensures Bounded(cfg, Run(cfg, ops).queue) && Accounted(cfg, Run(cfg, ops))
  {
    hide Bounded, Accounted, Next, Pushed, Taken;
    if ops == [] {
      StartHolds(cfg);
    } else {
      var h, op := Run(cfg, ops[..|ops| - 1]), ops[|ops| - 1];
      HistoryHolds(cfg, ops[..|ops| - 1]);
      StepHolds(cfg, h, op);
    }
  }

  lemma StartHolds(cfg: Config)
    ensures Bounded(cfg, Empty()) && Accounted(cfg, History(Empty(), [], []))
  {
  }

  lemma StepHolds(cfg: Config, h: History, op: Op)
    requires cfg.maxQueue >= 1 && Bounded(cfg, h.queue) && Accounted(cfg, h)
    ensures Bounded(cfg, Next(cfg, h, op).queue) && Accounted(cfg, Next(cfg, h, op))
  {
    hide Bounded, Accounted;
    match op {
      case Push(e) =>
        PushBounded(cfg, h.queue, e);
        PushAccounted(cfg, h, e);
      case Receive =>
        TakeBounded(cfg, h.queue);
        TakeAccounted(cfg, h);
    }
  }

  /** What was published to the subscriber, read or not. */
  function Published(ops: seq<Op>): seq<Event> {
    if ops == [] then []
    else
      match ops[|ops| - 1]
      case Push(e) => Published(ops[..|ops| - 1]) + [e]
      case Receive => Published(ops[..|ops| - 1])
  }

  /** Until events are lost in an overflow, all that was published was offered to the queue. */
  lemma {:induction false} AllIsOffered(cfg: Config, ops: seq<Op>)
    requires Count(Run(cfg, ops).gone, WasLost) == 0
    ensures Run(cfg, ops).offered == Published(ops) && Run(cfg, ops).queue.error.None?
  {
    hide Pushed, Taken, Fits, SendSize, ToDrop;
    if ops != [] {
      var h, op := Run(cfg, ops[..|ops| - 1]), ops[|ops| - 1];
      LossesStay(cfg, h, op);
      AllIsOffered(cfg, ops[..|ops| - 1]);
    }
  }

  lemma LossesStay(cfg: Config, h: History, op: Op)
    ensures Count(Next(cfg, h, op).gone, WasLost) >= Count(h.gone, WasLost)
    ensures h.queue.error.None? && Count(Next(cfg, h, op).gone, WasLost) == 0 ==> Next(cfg, h, op).queue.error.None?
  {
    hide SendSize, SizeOf;
    var more := Next(cfg, h, op).gone[|h.gone|..];
    GoneConcat(h.gone, more, WasLost);
    if op.Push? && h.queue.error.None? {
      var lost := h.queue.events + [op.event];
      AllGoneCounts(AllGone(lost, WasLost), lost, WasLost, WasLost);
    }
  }

  /** Under drop-oldest the queue is a suffix of everything offered, nothing fails, and every event offered was
      delivered, dropped or is queued: each counted once. */
  lemma NothingIsMissing(cfg: Config, ops: seq<Op>)
    requires cfg.maxQueue >= 1 && cfg.onFull.DropOldest?
    ensures Run(cfg, ops).offered == Published(ops)
    ensures var h := Run(cfg, ops); var q := h.queue;
      && |q.events| <= |h.offered| && q.events == h.offered[|h.offered| - |q.events|..]
      && q.error.None?
      && q.received == Count(h.gone, WasDelivered) + q.dropped + |q.events|
  {
    HistoryHolds(cfg, ops);
    AllIsOffered(cfg, ops);
    GoneAdd(Run(cfg, ops).gone);
  }

  /** Under the error policy nothing is dropped one by one; what is not delivered or queued was lost in an
      overflow, which the subscriber is told of. */
  lemma LostOnlyInOverflow(cfg: Config, ops: seq<Op>)
    requires cfg.maxQueue >= 1 && cfg.onFull.Error?
    ensures var h := Run(cfg, ops); var q := h.queue;
      && q.dropped == 0
      && q.received == Count(h.gone, WasDelivered) + Count(h.gone, WasLost) + |q.events|
  {
    HistoryHolds(cfg, ops);
    GoneAdd(Run(cfg, ops).gone);
  }

  // ---------------------------------------------------------------------------------------------
  // The program that reads a subscription
  // ---------------------------------------------------------------------------------------------

  /** A program with the handle of a subscription, while it is open; what it has read, and the error it was told. */
  datatype Reader = Reader(queue: Queue, open: bool, read: seq<Event>, told: Option<Overflow>)

  /** Reading the error closes the handle and unsubscribes; a publisher that chose the subscriber before that may
      still push to it. */
  function ReaderAfter(cfg: Config, r: Reader, op: Op): Reader {
    match op
    case Push(e) => r.(queue := Pushed(cfg, r.queue, e))
    case Receive =>
      if !r.open then r
      else
        var (received, queue) := Taken(r.queue);
        match received
        case Delivered(e) => r.(queue := queue, read := r.read + [e])
        case Failed(overflow) => Reader(queue, false, r.read, Some(overflow))
        case NothingYet => r.(queue := queue)
  }

  function Reading(cfg: Config, ops: seq<Op>): Reader {
    if ops == [] then Reader(Empty(), true, [], None)
    else ReaderAfter(cfg, Reading(cfg, ops[..|ops| - 1]), ops[|ops| - 1])
  }

  /** The events right after those read, as many as the overflow says and with as many bytes, and at least one more
      were published. */
  predicate Missed(published: seq<Event>, read: seq<Event>, o: Overflow) {
    && |read| + o.events < |published|
    && SizeOf(published[|read|..|read| + o.events]) == o.bytes
  }

  predicate ReaderOk(published: seq<Event>, r: Reader) {
    && r.read <= published
    && (r.open <==> r.told.None?)
    && (r.open && r.queue.error.None? ==> published == r.read + r.queue.events)
    && (r.open && r.queue.error.Some? ==> r.queue.events == [] && Missed(published, r.read, r.queue.error.value))
    && (r.told.Some? ==> Missed(published, r.read, r.told.value))
  }

  lemma MissedStill(published: seq<Event>, e: Event, read: seq<Event>, o: Overflow)
    requires Missed(published, read, o)
    ensures Missed(published + [e], read, o)
  {
    assert (published + [e])[|read|..|read| + o.events] == published[|read|..|read| + o.events];
  }

  lemma PushRead(cfg: Config, published: seq<Event>, r: Reader, e: Event)
    requires cfg.onFull.Error? && ReaderOk(published, r)
    ensures ReaderOk(published + [e], ReaderAfter(cfg, r, Push(e)))
  {
    hide SendSize, SizeOf, Missed;
    var q := r.queue;
    if r.told.Some? {
      MissedStill(published, e, r.read, r.told.value);
    } else if q.error.Some? {
      MissedStill(published, e, r.read, q.error.value);
    } else if Fits(cfg, q.events, SendSize(e.data)) {
      FitsDropsNothing(cfg, q.events, SendSize(e.data));
    } else {
      JustOverflowed(published, r.read, q.events, e);
    }
  }

  lemma JustOverflowed(published: seq<Event>, read: seq<Event>, queued: seq<Event>, e: Event)
    requires published == read + queued
    ensures Missed(published + [e], read, Overflow(|queued|, SizeOf(queued)))
  {
    assert (published + [e])[|read|..|read| + |queued|] == queued;
  }

  /** Under the error policy a program reads what was published without a gap, and then at most one error, which says
      how many events and bytes come next that it will never read. Until the queue overflows all that was published
      has been read or is queued. */
  lemma {:induction false} ReadsThenError(cfg: Config, ops: seq<Op>)
    requires cfg.onFull.Error?
    ensures var r, published := Reading(cfg, ops), Published(ops);
      && r.read <= published
      && (r.open <==> r.told.None?)
      && (r.open && r.queue.error.None? ==> published == r.read + r.queue.events)
      && (r.told.Some? ==> Missed(published, r.read, r.told.value))
    ensures ReaderOk(Published(ops), Reading(cfg, ops))
  {
    hide ReaderAfter, Missed;
    if ops != [] {
      var r, published, op := Reading(cfg, ops[..|ops| - 1]), Published(ops[..|ops| - 1]), ops[|ops| - 1];
      ReadsThenError(cfg, ops[..|ops| - 1]);
      match op {
        case Push(e) => PushRead(cfg, published, r, e);
        case Receive => ReceiveRead(cfg, published, r);
      }
    }
  }

  lemma ReceiveRead(cfg: Config, published: seq<Event>, r: Reader)
    requires ReaderOk(published, r)
    ensures ReaderOk(published, ReaderAfter(cfg, r, Receive))
  {
    hide SizeOf, Missed;
  }

  /** The next receive reads the next event published, while none is missed; an overflow is told once nothing before
      it is left to read. */
  lemma NextIsRead(cfg: Config, ops: seq<Op>)
    requires cfg.onFull.Error? && Reading(cfg, ops).open
    ensures var was, now, published := Reading(cfg, ops), Reading(cfg, ops + [Receive]), Published(ops);
      match was.queue.error
      case Some(o) => now.told == Some(o) && now.read == was.read
      case None =>
        now.open && now.read == if |was.read| < |published| then was.read + [published[|was.read|]] else was.read
  {
    hide Missed, SizeOf;
    ReadsThenError(cfg, ops);
    assert (ops + [Receive])[..|ops|] == ops;
  }

  /** The error is the last thing it reads, whatever is published and however often it asks. */
  lemma {:induction false} NothingAfterError(cfg: Config, ops: seq<Op>, more: seq<Op>)
    requires Reading(cfg, ops).told.Some? && cfg.onFull.Error?
    ensures var was, now := Reading(cfg, ops), Reading(cfg, ops + more);
      now.read == was.read && now.told == was.told && !now.open
  {
    hide Pushed, Taken;
    if more == [] {
      assert ops + more == ops;
      ReadsThenError(cfg, ops);
    } else {
      assert (ops + more)[..|ops + more| - 1] == ops + more[..|more| - 1];
      NothingAfterError(cfg, ops, more[..|more| - 1]);
    }
  }

  // ---------------------------------------------------------------------------------------------
  // The subscriber and the bus
  // ---------------------------------------------------------------------------------------------

  function SaturatingSub(a: nat, b: nat): nat {
    if a < b then 0 else a - b
  }

  function Clamp(n: nat, lo: nat, hi: nat): nat {
    if n < lo then lo else if n > hi then hi else n
  }

  class Subscriber {
    const id: nat
    const patterns: seq<string>
    const cfg: Config
    var events: seq<Event>
    var queuedBytes: nat
    var error: Option<Overflow>
    var dropped: nat
    var received: nat

    function View(): Queue
      reads this
    {
      Queue(events, queuedBytes, error, dropped, received)
    }

    ghost predicate Valid()
      reads this
    {
      cfg.maxQueue >= 1 && Bounded(cfg, View())
    }

    constructor (id: nat, patterns: seq<string>, maxQueue: nat, maxBytes: nat, onFull: OnFull)
      ensures Valid() && View() == Empty()
      ensures this.id == id && this.patterns == patterns
      ensures cfg.maxQueue == if maxQueue < 1 then 1 else if maxQueue > 1_000_000 then 1_000_000 else maxQueue
      ensures cfg.maxBytes == if maxBytes < 1 then 1 else if maxBytes > 1_073_741_824 then 1_073_741_824 else maxBytes
      ensures cfg.onFull == onFull
    {
      this.id, this.patterns := id, patterns;
      cfg := Config(Clamp(maxQueue, 1, MAX_QUEUE_CEILING), Clamp(maxBytes, 1, MAX_BYTES_CEILING), onFull);
      events, queuedBytes, error, dropped, received := [], 0, None, 0, 0;
    }

    /** The loop of `push`: the oldest go until the new event fits. */
    method MakeRoom(size: nat)
      requires queuedBytes == SizeOf(events)
      modifies `events, `queuedBytes, `dropped
      ensures var k := ToDrop(cfg, old(events), size);
        events == old(events)[k..] && dropped == old(dropped) + k && queuedBytes == SizeOf(events)
    {
      hide SendSize;
      ghost var was, k := events, 0;
      assert events[0..] == events;
      while events != [] && (|events| >= cfg.maxQueue || queuedBytes + size > cfg.maxBytes)
        invariant k <= |was| && events == was[k..] && queuedBytes == SizeOf(events) && dropped == old(dropped) + k
        invariant k + ToDrop(cfg, events, size) == ToDrop(cfg, was, size)
      {
        queuedBytes := SaturatingSub(queuedBytes, SendSize(events[0].data));
        events := events[1..];
        dropped := dropped + 1;
        k := k + 1;
      }
    }

    method Push(e: Event)
      requires Valid()
      modifies this
      ensures Valid() && View() == Pushed(cfg, old(View()), e)
    {
      hide SendSize;
      PushBounded(cfg, View(), e);
      var size := SendSize(e.data);
      if error.Some? {
        return;
      }
      received := received + 1;
      if |events| >= cfg.maxQueue || queuedBytes + size > cfg.maxBytes {
        match cfg.onFull {
          case DropOldest =>
            MakeRoom(size);
          case Error =>
            error := Some(Overflow(|events|, queuedBytes));
            events := [];
            queuedBytes := 0;
            return;
        }
      }
      BytesConcat(events, [e]);
      BytesOne(e);
      events := events + [e];
      queuedBytes := queuedBytes + size;
    }

    method TryRecv() returns (r: Received)
      requires Valid()
      modifies this
      ensures Valid() && (r, View()) == Taken(old(View()))
    {
      if events != [] {
        r := Delivered(events[0]);
        queuedBytes := SaturatingSub(queuedBytes, SendSize(events[0].data));
        events := events[1..];
      } else if error.Some? {
        r := Failed(error.value);
        error := None;
      } else {
        r := NothingYet;
      }
    }
  }

  class Bus {
    var subs: map<nat, Subscriber>
    var nextId: nat
    var published: nat
    const maxSubscribers: nat

    ghost predicate Valid()
      reads this, subs.Values
    {
      && (forall id :: id in subs ==> id < nextId && subs[id].id == id && subs[id].Valid())
      && |subs| <= maxSubscribers
    }

    constructor (maxSubscribers: nat)
      ensures Valid() && subs == map[]
    {
      subs, nextId, published := map[], 1, 0;
      this.maxSubscribers := maxSubscribers;
    }

    /** A new subscription has an id never used before. */
    method Subscribe(patterns: seq<string>, maxQueue: nat, maxBytes: nat, onFull: OnFull)
      returns (s: Result<Subscriber>)
      requires Valid()
      modifies this
      ensures Valid() && published == old(published)
      ensures s.Ok? <==> |old(subs)| < maxSubscribers
      ensures s.Err? ==> subs == old(subs) && nextId == old(nextId)
      ensures s.Ok? ==> fresh(s.value) && s.value.id == old(nextId) && nextId == old(nextId) + 1
      ensures s.Ok? ==> subs == old(subs)[old(nextId) := s.value]
      ensures s.Ok? ==> s.value.View() == Empty() && s.value.patterns == patterns
    {
      if |subs| >= maxSubscribers {
        return Err("too many live subscriptions");
      }
      var id := nextId;
      nextId := nextId + 1;
      var sub := new Subscriber(id, patterns, maxQueue, maxBytes, onFull);
      subs := subs[id := sub];
      s := Ok(sub);
    }

    method Unsubscribe(id: nat) returns (was: bool)
      requires Valid()
      modifies this
      ensures Valid() && was == (id in old(subs)) && subs == old(subs) - {id} && nextId == old(nextId)
    {
      was := id in subs;
      subs := subs - {id};
    }

    /** The subscribers whose patterns match, in the order in which the map gives them. */
    method Targets(matches: (string, string) -> bool, topic: string) returns (targets: seq<Subscriber>)
      requires Valid()
      ensures forall s :: s in targets <==> s in subs.Values && (exists p :: p in s.patterns && matches(p, topic))
      ensures forall i, j :: 0 <= i < j < |targets| ==> targets[i] != targets[j]
      ensures |targets| == |set s | s in subs.Values && (exists p :: p in s.patterns && matches(p, topic))|
    {
      hide Bounded;
      targets := [];
      var left := subs.Keys;
      while left != {}
        invariant left <= subs.Keys
        invariant forall s :: s in targets <==>
          exists id :: id in subs.Keys - left && subs[id] == s && (exists p :: p in s.patterns && matches(p, topic))
        invariant forall i, j :: 0 <= i < j < |targets| ==> targets[i] != targets[j]
        decreases |left|
      {
        var id :| id in left;
        left := left - {id};
        if exists p :: p in subs[id].patterns && matches(p, topic) {
          targets := targets + [subs[id]];
        }
      }
      assert (set s | s in subs.Values && (exists p :: p in s.patterns && matches(p, topic))) == set s | s in targets;
      DistinctCount(targets);
    }

    /** Every subscriber whose patterns match gets the event, once and whole; the others are left alone. The last
        copy is moved out of the payload, the others are clones. */
    method Publish(matches: (string, string) -> bool, topic: string, data: SendValue, now: real) returns (n: nat)
      requires Valid()
      modifies this`published, subs.Values
      ensures n == |set s | s in subs.Values && (exists p :: p in s.patterns && matches(p, topic))|
      ensures Valid() && subs == old(subs) && published == old(published) + 1
      ensures forall s :: s in subs.Values && (exists p :: p in s.patterns && matches(p, topic)) ==>
        s.View() == Pushed(s.cfg, old(s.View()), Event(topic, data, now))
      ensures forall s :: s in subs.Values && !(exists p :: p in s.patterns && matches(p, topic)) ==>
        s.View() == old(s.View())
    {
      hide Pushed, Bounded;
      published := published + 1;
      var targets := Targets(matches, topic);
      n := |targets|;
      Deliver(targets, topic, data, now);
    }
  }

  lemma {:induction false} DistinctCount(all: seq<Subscriber>)
    requires forall i, j :: 0 <= i < j < |all| ==> all[i] != all[j]
    ensures |set s | s in all| == |all|
  {
    if all == [] {
      assert (set s | s in all) == {};
    } else {
      var fewer, last := all[..|all| - 1], all[|all| - 1];
      DistinctCount(fewer);
      assert all == fewer + [last] && last !in fewer;
      assert (set s | s in all) == (set s | s in fewer) + {last};
    }
  }

  /** Each of the subscribers gets the whole event: the last one the payload itself, the others clones. */
  method Deliver(targets: seq<Subscriber>, topic: string, data: SendValue, now: real)
    requires forall s :: s in targets ==> s.Valid()
    requires forall i, j :: 0 <= i < j < |targets| ==> targets[i] != targets[j]
    modifies targets
    ensures forall s :: s in targets ==> s.Valid() && s.View() == Pushed(s.cfg, old(s.View()), Event(topic, data, now))
  {
    hide Pushed, Bounded;
    var payload := Some(data);
    for i := 0 to |targets|
      invariant i < |targets| ==> payload == Some(data)
      invariant forall s :: s in targets ==> s.Valid()
      invariant forall j :: 0 <= j < i ==>
        targets[j].View() == Pushed(targets[j].cfg, old(targets[j].View()), Event(topic, data, now))
      invariant forall j :: i <= j < |targets| ==> targets[j].View() == old(targets[j].View())
    {
      var copy := if payload.Some? then payload.value else Nothing;
      if i + 1 == |targets| {
        payload := None;
      }
      targets[i].Push(Event(topic, copy, now));
    }
  }
}
