/**
 A push or a pop that is carried through, whatever the other side is in the middle of: a push to
 a queue with room appends its message, and a pop from a queue that is not empty returns the front.
 */
module RingRounds {
  import opened Ring

  ghost predicate Leads(s: Sys, t: Sys) {
    exists run, actions :: Goes(s, t, run, actions)
  }

  ghost predicate Goes(s: Sys, t: Sys, run: seq<Sys>, actions: seq<Action>) {
    Run(run, actions) && run[0] == s && run[|actions|] == t
  }

  lemma LeadsHere(s: Sys)
    ensures Leads(s, s)
  {
    assert Goes(s, s, [s], []);
  }

  lemma LeadsOn(s: Sys, t: Sys, x: Action)
    requires Leads(s, t) && Inv(t) && Enabled(t, x)
    ensures Shape(t) && Leads(s, Next(t, x)) && Inv(Next(t, x))
  {
    StepKeeps(t, x);
    InvShape(t);
    hide Next, Enabled, Inv, Shape;
    var run, actions :| Goes(s, t, run, actions);
    var run', actions' := run + [Next(t, x)], actions + [x];
    forall i | 0 <= i < |actions'| ensures Shape(run'[i]) && Enabled(run'[i], actions'[i]) && run'[i + 1] == Next(run'[i], actions'[i]) {
      if i < |actions| { assert Enabled(run[i], actions[i]) && run[i + 1] == Next(run[i], actions[i]); }
    }
    assert Goes(s, Next(t, x), run', actions');
  }

  lemma InvShape(s: Sys)
    requires Inv(s)
    ensures Shape(s) && Cursors(s)
  { }

  // ------------------------------------------------------------------ pushing

  /** Only the producer and the slots have moved. */
  predicate ProducerOnly(s: Sys, t: Sys) {
    t == s.(producer := t.producer, slots := t.slots)
  }

  lemma {:induction false} StoreRest(s: Sys, t: Sys, m: Message, done: nat) returns (u: Sys)
    requires Inv(t) && Leads(s, t) && ProducerOnly(s, t) && t.producer == Writing(m, s.tail, done) && done <= |Encode(m)|
    ensures Inv(u) && Leads(s, u) && ProducerOnly(s, u) && u.producer == Writing(m, s.tail, |Encode(m)|)
    decreases |Encode(m)| - done
  {
    hide Leads, Inv;
    u := t;
    if done < |Encode(m)| {
      LeadsOn(s, t, StoreWord);
      WordStored(t);
      u := StoreRest(s, Next(t, StoreWord), m, done + 1);
    }
  }

  /** A word of a valid message always has its place in the slot. */
  lemma WordStored(t: Sys)
    requires Inv(t) && Enabled(t, StoreWord)
    ensures Shape(t) && Next(t, StoreWord).producer == t.producer.(done := t.producer.done + 1) && ProducerOnly(t, Next(t, StoreWord))
  { }

  /** Up to the decision whether there is room. */
  lemma PushBegins(s: Sys, m: Message) returns (t: Sys)
    requires Inv(s) && s.producer.Ready? && m.kind != 0 && m.source == s.source && m.target == s.target && |m.payload| <= 128
    ensures Inv(t) && Leads(s, t)
    ensures t == if s.tail < s.head + s.capacity then s.(producer := Writing(m, s.tail, 0)) else s.(answers := s.answers + [Full])
  {
    LeadsHere(s);
    hide Leads, Inv;
    LeadsOn(s, s, BeginPush(m));
    t := s.(producer := Loading(m));
    LeadsOn(s, t, LoadTail);
    t := s.(producer := HasTail(m, s.tail));
    LeadsOn(s, t, LoadHead);
    t := Next(t, LoadHead);
  }

  /** The sequence and the tail make the message visible. */
  lemma PushEnds(s: Sys, u: Sys, m: Message) returns (t: Sys)
    requires Inv(u) && Leads(s, u) && ProducerOnly(s, u) && u.producer == Writing(m, s.tail, |Encode(m)|)
    ensures Inv(t) && Leads(s, t) && t == s.(producer := Ready, slots := t.slots, tail := s.tail + 1, sent := s.sent + [m])
  {
    hide Leads, Inv;
    LeadsOn(s, u, StoreSequence);
    t := Next(u, StoreSequence);
    LeadsOn(s, t, StoreTail);
    t := Next(t, StoreTail);
  }

  /** A valid push is carried out exactly if the queue has room when the head is read; otherwise it answers full. */
  lemma PushAlone(s: Sys, m: Message) returns (t: Sys)
    requires Inv(s) && s.producer.Ready? && m.kind != 0 && m.source == s.source && m.target == s.target && |m.payload| <= 128
    ensures Leads(s, t) && Cursors(s) && Cursors(t) && t.consumer == s.consumer && t.head == s.head && t.producer.Ready?
    ensures if |Queue(s)| < s.capacity then Queue(t) == Queue(s) + [m] && t.answers == s.answers
            else Queue(t) == Queue(s) && t.answers == s.answers + [Full]
  {
    InvShape(s);
    hide Leads, Inv, Encode;
    t := PushBegins(s, m);
    if s.tail < s.head + s.capacity {
      t := StoreRest(s, t, m, 0);
      t := PushEnds(s, t, m);
    }
    InvShape(t);
  }

  // ------------------------------------------------------------------ popping

  predicate ConsumerOnly(s: Sys, t: Sys) {
    t == s.(consumer := t.consumer)
  }

  lemma {:induction false} ReadRest(s: Sys, t: Sys, words: seq<Word>) returns (u: Sys)
    requires Inv(t) && Leads(s, t) && ConsumerOnly(s, t) && t.consumer == Reading(s.head, words) && s.head < |s.sent|
    ensures Inv(u) && Leads(s, u) && ConsumerOnly(s, u) && u.consumer.Reading? && ReadAll(u.consumer.words)
    decreases |Encode(s.sent[s.head])| - |words|
  {
    hide Leads, Inv;
    u := t;
    if !ReadAll(words) {
      LeadsOn(s, t, ReadWord);
      var more := WordRead(t);
      u := ReadRest(s, Next(t, ReadWord), more);
    }
  }

  /** A word that is missing is there to be read, and the header is never found wrong. */
  lemma WordRead(t: Sys) returns (more: seq<Word>)
    requires Inv(t) && Enabled(t, ReadWord)
    ensures Shape(t) && ConsumerOnly(t, Next(t, ReadWord)) && Next(t, ReadWord).consumer == Reading(t.consumer.head, more)
    ensures t.consumer.head < |t.sent| && |t.consumer.words| < |more| <= |Encode(t.sent[t.consumer.head])|
  {
    more := Next(t, ReadWord).consumer.words;
  }

  /** Up to the decision whether there is something to read. */
  lemma PopBegins(s: Sys) returns (t: Sys)
    requires Inv(s) && s.consumer.Idle?
    ensures Inv(t) && Leads(s, t) && Cursors(s)
    ensures t == if s.head < s.tail then s.(consumer := Reading(s.head, [])) else s.(answers := s.answers + [Empty])
  {
    InvShape(s);
    LeadsHere(s);
    hide Leads, Inv;
    LeadsOn(s, s, BeginPop);
    t := s.(consumer := HasHead(s.head));
    LeadsOn(s, t, PeekTail);
    t := Next(t, PeekTail);
    if s.head < s.tail {
      LeadsOn(s, t, CheckSequence);
      SequenceMatches(t);
      t := Next(t, CheckSequence);
    }
  }

  /** A pop returns the front of a queue that is not empty, and otherwise answers empty. */
  lemma PopAlone(s: Sys) returns (t: Sys)
    requires Inv(s) && s.consumer.Idle?
    ensures Leads(s, t) && Cursors(s) && Cursors(t) && t.producer == s.producer && t.tail == s.tail && t.consumer.Idle?
    ensures if Queue(s) != [] then Queue(t) == Queue(s)[1..] && t.received == s.received + [Queue(s)[0]] && t.answers == s.answers + [Popped(Queue(s)[0])]
            else t == s.(answers := s.answers + [Empty])
  {
    hide Leads, Inv;
    t := PopBegins(s);
    InvShape(t);
    if s.head < s.tail {
      t := ReadRest(s, t, []);
      InvShape(t);
      t := PopEnds(s, t);
    }
  }

  lemma PopEnds(s: Sys, u: Sys) returns (t: Sys)
    requires Inv(u) && Leads(s, u) && ConsumerOnly(s, u) && u.consumer.Reading? && ReadAll(u.consumer.words) && Cursors(s) && Cursors(u)
    ensures Inv(t) && Leads(s, t) && Cursors(t) && t.producer == s.producer && t.tail == s.tail && t.consumer.Idle?
    ensures Queue(s) != [] && Queue(t) == Queue(s)[1..] && t.received == s.received + [Queue(s)[0]] && t.answers == s.answers + [Popped(Queue(s)[0])]
  {
    InvShape(u);
    StepRefines(u, StoreHead, Next(u, StoreHead));
    StoreHeadKeeps(u);
    hide Leads, Inv, Encode;
    LeadsOn(s, u, StoreHead);
    t := Next(u, StoreHead);
    InvShape(t);
  }
}
